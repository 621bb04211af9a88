/**
 * The ring of DEV::TTY_Stream (TTY_Asynch/TTY_Stream.cpp) as a value: the bytes from tail up to head, one cell always
 * unused.
 */
module Rings {

  datatype Ring = Ring(buffer: seq<char>, head: nat, tail: nat) {

    predicate Valid() { head < |buffer| && tail < |buffer| }

    function Length(): (n: nat)
      requires Valid()
      ensures n < |buffer|
    {
      if tail <= head then head - tail else |buffer| - tail + head
    }

    function Free(): (n: nat)
      requires Valid()
    {
      |buffer| - 1 - Length()
    }

    /** The cells in ring order, from tail on */
    function Cells(): (cells: seq<char>)
      requires Valid()
      ensures |cells| == |buffer|
    {
      buffer[tail..] + buffer[..tail]
    }

    function Content(): (bytes: seq<char>)
      requires Valid()
      ensures |bytes| == Length()
    {
      Cells()[..Length()]
    }
  }

  /** The position i cells after position p */
  function Ahead(p: nat, i: nat, size: nat): (q: nat)
    requires p < size && i <= size
    ensures q < size
  {
    if p + i < size then p + i else p + i - size
  }

  lemma AheadIsModulo(p: nat, i: nat, size: nat)
    requires p < size && i <= size
    ensures (p + i) % size == Ahead(p, i, size)
  {
    if p + i < size { ModuloWithinOneTurn(p + i, size); } else { ModuloAfterOneTurn(p + i, size); }
  }

  /** The same, computed as the source does */
  function Advance(p: nat, i: nat, size: nat): (q: nat)
    requires p < size && i <= size
    ensures q == Ahead(p, i, size)
  {
    AheadIsModulo(p, i, size);
    (p + i) % size
  }

  lemma ModuloWithinOneTurn(x: nat, size: nat)
    requires x < size
    ensures x % size == x
  {
  }

  lemma ModuloAfterOneTurn(x: nat, size: nat)
    requires 0 < size <= x < 2 * size
    ensures x % size == x - size
  {
  }

  lemma CellAt(r: Ring, i: nat)
    requires r.Valid() && i < |r.buffer|
    ensures r.Cells()[i] == r.buffer[Ahead(r.tail, i, |r.buffer|)]
  {
  }

  lemma CellRun(r: Ring, n: nat, c: nat)
    requires r.Valid() && n + c <= |r.buffer|
    requires Ahead(r.tail, n, |r.buffer|) + c <= |r.buffer|
    ensures r.Cells()[n..n + c] == r.buffer[Ahead(r.tail, n, |r.buffer|)..Ahead(r.tail, n, |r.buffer|) + c]
  {
    var p := Ahead(r.tail, n, |r.buffer|);
    forall i | p <= i < p + c ensures r.buffer[i] == r.Cells()[n + i - p] { CellAt(r, n + i - p); }
  }

  lemma HeadIsAhead(r: Ring)
    requires r.Valid()
    ensures Ahead(r.tail, r.Length(), |r.buffer|) == r.head
  {
  }

  // ----- moving the ends

  function PutBump(r: Ring, n: nat): (s: Ring)
    requires r.Valid() && n <= r.Free()
    ensures s.Valid()
  {
    r.(head := Ahead(r.head, n, |r.buffer|))
  }

  function GetBump(r: Ring, n: nat): (s: Ring)
    requires r.Valid() && n <= r.Length()
    ensures s.Valid()
  {
    r.(tail := Ahead(r.tail, n, |r.buffer|))
  }

  /** Moving head makes the next cells part of the content. */
  lemma PutBumpAppends(r: Ring, n: nat)
    requires r.Valid() && n <= r.Free()
    ensures PutBump(r, n).Valid()
    ensures PutBump(r, n).Length() == r.Length() + n
    ensures PutBump(r, n).Content() == r.Content() + r.Cells()[r.Length()..r.Length() + n]
  {
  }

  /** Moving tail drops the first bytes. */
  lemma GetBumpDrops(r: Ring, n: nat)
    requires r.Valid() && n <= r.Length()
    ensures GetBump(r, n).Valid()
    ensures GetBump(r, n).Length() == r.Length() - n
    ensures GetBump(r, n).Content() == r.Content()[n..]
  {
    var s := GetBump(r, n);
    forall i | 0 <= i < s.Length() ensures s.Content()[i] == r.Content()[n + i] {
      CellAt(s, i);
      CellAt(r, n + i);
    }
  }

  // ----- writing cells

  /** The ring with bytes written from position p of the buffer on */
  function Blit(r: Ring, p: nat, bytes: seq<char>): (s: Ring)
    requires r.Valid() && p + |bytes| <= |r.buffer|
  {
    r.(buffer := r.buffer[..p] + bytes + r.buffer[p + |bytes|..])
  }

  /** A write at cell i does not reach the cells before it, or those behind the bytes written. */
  lemma BlitCells(r: Ring, i: nat, bytes: seq<char>)
    requires r.Valid() && i + |bytes| <= |r.buffer| && i < |r.buffer|
    requires Ahead(r.tail, i, |r.buffer|) + |bytes| <= |r.buffer|
    ensures Blit(r, Ahead(r.tail, i, |r.buffer|), bytes).Valid()
    ensures Blit(r, Ahead(r.tail, i, |r.buffer|), bytes).Cells() == r.Cells()[..i] + bytes + r.Cells()[i + |bytes|..]
  {
    var p := Ahead(r.tail, i, |r.buffer|);
    var s := Blit(r, p, bytes);
    forall j | 0 <= j < |r.buffer|
      ensures s.Cells()[j] == (r.Cells()[..i] + bytes + r.Cells()[i + |bytes|..])[j]
    {
      CellAt(s, j);
      CellAt(r, j);
    }
  }

  /** The ring with bytes written into the free cells after head, around the end of the buffer if need be */
  function Stored(r: Ring, bytes: seq<char>): (s: Ring)
    requires r.Valid() && |bytes| <= r.Free()
    ensures s.Valid() && s.head == r.head && s.tail == r.tail && |s.buffer| == |r.buffer|
  {
    var run := |r.buffer| - r.head;
    if |bytes| <= run then Blit(r, r.head, bytes) else Blit(Blit(r, r.head, bytes[..run]), 0, bytes[run..])
  }

  /** Storing leaves the content alone and puts the bytes right behind it. */
  lemma StoredCells(r: Ring, bytes: seq<char>)
    requires r.Valid() && |bytes| <= r.Free()
    ensures var n := r.Length(); Stored(r, bytes).Cells() == r.Cells()[..n] + bytes + r.Cells()[n + |bytes|..]
  {
    hide Ring.Cells, Blit;
    var n, run := r.Length(), |r.buffer| - r.head;
    HeadIsAhead(r);
    if |bytes| <= run {
      BlitCells(r, n, bytes);
    } else {
      BlitCells(r, n, bytes[..run]);
      var s := Blit(r, r.head, bytes[..run]);
      BlitKeepsEnds(r, r.head, bytes[..run]);
      assert Ahead(r.tail, n + run, |r.buffer|) == 0;
      BlitCells(s, n + run, bytes[run..]);
      assert bytes == bytes[..run] + bytes[run..];
    }
  }

  lemma BlitKeepsEnds(r: Ring, p: nat, bytes: seq<char>)
    requires r.Valid() && p + |bytes| <= |r.buffer|
    ensures var s := Blit(r, p, bytes); s.Valid() && s.head == r.head && s.tail == r.tail && |s.buffer| == |r.buffer|
  {
  }

  /** put followed by put_bump appends. */
  lemma StoredAppends(r: Ring, bytes: seq<char>)
    requires r.Valid() && |bytes| <= r.Free()
    ensures Stored(r, bytes).Length() == r.Length()
    ensures PutBump(Stored(r, bytes), |bytes|).Valid()
    ensures PutBump(Stored(r, bytes), |bytes|).Content() == r.Content() + bytes
  {
    hide Ring.Cells, Blit, Stored;
    StoredCells(r, bytes);
    PutBumpAppends(Stored(r, bytes), |bytes|);
  }

  lemma StoredAt(r: Ring, bytes: seq<char>, i: nat)
    requires r.Valid() && |bytes| <= r.Free() && i < |r.buffer|
    ensures var run := |r.buffer| - r.head;
      Stored(r, bytes).buffer[i] ==
      if r.head <= i < r.head + |bytes| then bytes[i - r.head]
      else if i + run < |bytes| then bytes[i + run]
      else r.buffer[i]
  {
  }

  /** One more copy of put */
  lemma StoredStep(r: Ring, bytes: seq<char>, n: nat, c: nat)
    requires r.Valid() && n + c <= |bytes| && n + c <= r.Free()
    requires Ahead(r.head, n, |r.buffer|) + c <= |r.buffer|
    ensures Stored(r, bytes[..n + c]) == Blit(Stored(r, bytes[..n]), Ahead(r.head, n, |r.buffer|), bytes[n..n + c])
  {
    hide Stored;
    var p := Ahead(r.head, n, |r.buffer|);
    var s, t := Stored(r, bytes[..n + c]), Blit(Stored(r, bytes[..n]), p, bytes[n..n + c]);
    forall i | 0 <= i < |r.buffer| ensures s.buffer[i] == t.buffer[i] {
      StoredAt(r, bytes[..n + c], i);
      StoredAt(r, bytes[..n], i);
      if p <= i < p + c { assert t.buffer[i] == bytes[n..n + c][i - p]; }
    }
  }

  /** One copy of get */
  lemma ContentRun(r: Ring, n: nat, c: nat)
    requires r.Valid() && n + c <= r.Length()
    requires Ahead(r.tail, n, |r.buffer|) + c <= |r.buffer|
    ensures r.buffer[Ahead(r.tail, n, |r.buffer|)..Ahead(r.tail, n, |r.buffer|) + c] == r.Content()[n..n + c]
  {
    CellRun(r, n, c);
    assert r.Content()[n..n + c] == r.Cells()[n..n + c];
  }

  // ----- the loops of put and get

  function Min(a: int, b: int): int { if a < b then a else b }

  /**
   * How many bytes a request for len gets, of avail available ones with run of them before the end of the buffer. The
   * loop subtracts each copy from the request twice, in its body and in its header.
   */
  function Copied(len: nat, avail: nat, run: nat): nat {
    var first: nat := Min(Min(len, avail), run);
    var left := len - 2 * first;
    if left <= 0 then first else first + Min(left, avail - first)
  }

  /** A prefix of the request that fits, never empty, and at least half of it unless nothing more fits; exactly how
      much, where less is copied than fits. */
  lemma CopiedIsPrefix(len: nat, avail: nat, run: nat)
    requires 0 < run
    ensures Copied(len, avail, run) <= len && Copied(len, avail, run) <= avail
    ensures len > 0 && avail > 0 ==> Copied(len, avail, run) > 0
    ensures 2 * Copied(len, avail, run) >= len || Copied(len, avail, run) == avail
    ensures Copied(len, avail, run) == Min(len, avail) <==> len <= run || avail <= run || run + avail <= len
    ensures run < len < run + avail && run < avail ==>
              Copied(len, avail, run) == if len <= 2 * run then run else len - run
  {
  }

  /** How far either loop has come when n bytes are copied and left is its count of the rest */
  predicate Phase(len: nat, avail: nat, run: nat, n: nat, left: int) {
    && left == len - 2 * n && n <= avail && n <= len
    && (n == 0
        || (left > 0 && (n == avail || (n == run < avail)))
        || n == Copied(len, avail, run))
    && (left <= 0 || n == avail ==> n == Copied(len, avail, run))
  }

  lemma PhaseStep(len: nat, avail: nat, run: nat, n: nat, left: int, c: nat)
    requires Phase(len, avail, run, n, left) && left > 0 && n < avail && run > 0
    requires n == 0 ==> c == Min(Min(left, avail), run)
    requires n > 0 ==> c == Min(left, avail - n)
    ensures c > 0 && Phase(len, avail, run, n + c, left - 2 * c)
  {
  }

  /** One pass of the loop of put at position p with left bytes to go: the next position and what is left, or the
      exit. */
  datatype Pass = Exit | Again(p: nat, left: int, copied: nat)

  function PutPass(size: nat, tail: nat, p: nat, left: int): (pass: Pass)
    requires tail < size && p < size && left > 0
    ensures pass.Again? ==> pass.p < size
  {
    var io := tail - p - 1;
    if io == 0 then Exit
    else if io > 0 || io + size > 0 then
      var c := Min(Min(left, if io > 0 then io else io + size), size - p);
      Again(Ahead(p, c, size), left - 2 * c, c)
    else
      Again(p, left, 0)
  }

  /** The loop of put is over within n passes. */
  predicate PutEndsWithin(size: nat, tail: nat, p: nat, left: int, n: nat)
    requires tail < size && p < size
    decreases n
  {
    left <= 0 || (n > 0 &&
      match PutPass(size, tail, p, left)
      case Exit => true
      case Again(q, rest, _) => PutEndsWithin(size, tail, q, rest, n - 1))
  }

  /** Once the last free cell is the last of the buffer and tail is 0, the loop copies nothing and never ends. */
  lemma {:induction false} SpinsForever(size: nat, left: int, n: nat)
    requires size > 0 && left > 0
    ensures !PutEndsWithin(size, 0, size - 1, left, n)
    decreases n
  {
    if n > 0 { SpinsForever(size, left, n - 1); }
  }

  ghost predicate PutEnds(r: Ring, len: int)
    requires r.Valid()
  {
    exists n: nat :: PutEndsWithin(|r.buffer|, r.tail, r.head, len, n)
  }

  /** put ends if and only if tail is not 0 or the request is at most twice what fits. */
  lemma PutEndsIff(r: Ring, len: nat)
    requires r.Valid()
    ensures PutEnds(r, len) <==> r.tail != 0 || len <= 2 * r.Free()
  {
    var size := |r.buffer|;
    if r.tail != 0 || len <= 2 * r.Free() {
      var n := PutEndsSoon(r, len);
      assert PutEndsWithin(size, r.tail, r.head, len, n);
    } else {
      forall n: nat ensures !PutEndsWithin(size, r.tail, r.head, len, n) {
        if r.head == size - 1 {
          SpinsForever(size, len, n);
        } else if n > 0 {
          var pass := PutPass(size, r.tail, r.head, len);
          assert pass == Again(size - 1, len - 2 * r.Free(), r.Free());
          SpinsForever(size, pass.left, n - 1);
        }
      }
    }
  }

  lemma PutEndsSoon(r: Ring, len: nat) returns (n: nat)
    requires r.Valid() && (r.tail != 0 || len <= 2 * r.Free())
    ensures PutEndsWithin(|r.buffer|, r.tail, r.head, len, n)
  {
    n := 3;
    var size := |r.buffer|;
    if len > 0 {
      var one := PutPass(size, r.tail, r.head, len);
      if one.Again? && one.left > 0 {
        assert one.copied == r.tail - r.head - 1 || (r.tail <= r.head && one.copied == size - r.head && one.p == 0);
        var two := PutPass(size, r.tail, one.p, one.left);
        if two.Again? && two.left > 0 {
          assert two.p == r.tail - 1;
          assert PutPass(size, r.tail, two.p, two.left) == Exit;
          assert PutEndsWithin(size, r.tail, two.p, two.left, 1);
        }
        assert PutEndsWithin(size, r.tail, one.p, one.left, 2);
      }
    }
  }

  /** On a stream just made, a request of more than twice its size never returns. */
  lemma FreshPutSpins(r: Ring, len: nat)
    requires r.Valid() && r.head == 0 && r.tail == 0
    ensures PutEnds(r, len) <==> len <= 2 * (|r.buffer| - 1)
  {
    PutEndsIff(r, len);
  }
}
