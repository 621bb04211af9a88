/** DEV::TTY_Stream and its writing and reading subclasses (TTY_Asynch/) as one mutable object. */
module TTYStream {
  import opened Options
  import opened Rings
  import W = WriteStream
  import R = ReadStream

  class Stream {
    const buffer: array<char>
    var head: nat
    var tail: nat
    var permits: nat
    var active: bool

    // the request the device is working on
    var sending: Option<W.Transfer>
    var receiving: Option<R.Region>

    // the bytes that went through
    ghost var accepted: seq<char>
    ghost var sent: seq<char>
    ghost var received: seq<char>
    ghost var returned: seq<char>

    ghost function Value(): Ring
      reads this, buffer
    {
      Ring(buffer[..], head, tail)
    }

    ghost predicate Valid()
      reads this, buffer
    {
      Value().Valid()
    }

    ghost function AsWriter(): W.Writer
      reads this, buffer
    {
      W.Writer(Value(), permits, active, sending, accepted, sent)
    }

    ghost function AsReader(): R.Reader
      reads this, buffer
    {
      R.Reader(Value(), permits, active, receiving, received, returned)
    }

    constructor (size: nat)
      ensures fresh(buffer) && buffer.Length == size + 1
      ensures W.Initial(AsWriter()) && R.Initial(AsReader())
    {
      buffer := new char[size + 1];
      head, tail, permits, active := 0, 0, 1, true;
      sending, receiving, accepted, sent, received, returned := None, None, [], [], [], [];
    }

    predicate IsFull()
      requires Valid()
      reads this, buffer
      ensures IsFull() <==> Value().Free() == 0
    {
      FullModulo(head, buffer.Length);
      (head + buffer.Length + 1) % buffer.Length == tail
    }

    predicate IsEmpty()
      reads this
      requires Valid()
      reads buffer
      ensures IsEmpty() <==> Value().Length() == 0
    {
      head == tail
    }

    function Length(): (n: nat)
      requires Valid()
      reads this, buffer
      ensures n == |Value().Content()|
    {
      if IsEmpty() then 0 else
        LengthModulo(head, tail, buffer.Length);
        (buffer.Length + head - tail) % buffer.Length
    }

    /** put_bump */
    method PutBump(len: nat) returns (n: nat)
      requires Valid()
      modifies this`head
      ensures Valid() && n == Min(len, old(Value()).Free())
      ensures Value() == Rings.PutBump(old(Value()), n)
    {
      n := 0;
      ghost var r := Value();
      var left := len;
      while !IsFull() && left > 0
        invariant Valid() && n + left == len && n <= r.Free() && Value() == Rings.PutBump(r, n)
        decreases left
      {
        left := left - 1;
        head, n := Advance(head, 1, buffer.Length), n + 1;
      }
    }

    /** get_bump */
    method GetBump(len: nat) returns (n: nat)
      requires Valid()
      modifies this`tail
      ensures Valid() && n == Min(len, old(Value()).Length())
      ensures Value() == Rings.GetBump(old(Value()), n)
    {
      n := 0;
      ghost var r := Value();
      var left := len;
      while !IsEmpty() && left > 0
        invariant Valid() && n + left == len && n <= r.Length() && Value() == Rings.GetBump(r, n)
        decreases left
      {
        left := left - 1;
        tail, n := Advance(tail, 1, buffer.Length), n + 1;
      }
    }

    /** find: the first position at or after off that holds c, or -1 */
    method Find(c: char, off: int) returns (pos: int)
      requires Valid()
      ensures -1 <= pos < |Value().Content()|
      ensures pos >= 0 ==> pos >= off && Value().Content()[pos] == c
      ensures forall i :: 0 <= i < |Value().Content()| && off <= i && (pos < 0 || i < pos) ==> Value().Content()[i] != c
    {
      hide Ring.Content;
      var t, skip := tail, off;
      pos := 0;
      while t != head
        invariant 0 <= pos <= Value().Length() && t == Ahead(tail, pos, buffer.Length)
        invariant skip == if pos <= off then off - pos else if off > 0 then 0 else off
        invariant forall i :: 0 <= i < pos && off <= i ==> Value().Content()[i] != c
        decreases Value().Length() - pos
      {
        HeadIsAhead(Value());
        ContentAt(Value(), pos);
        if skip > 0 {
          skip := skip - 1;
        } else if buffer[t] == c {
          return;
        }
        t, pos := Advance(t, 1, buffer.Length), pos + 1;
      }
      AheadOnce(Value(), pos);
      pos := -1;
    }

    /** put; its loop goes on forever, without copying anything more, where spins is returned */
    method Put(data: seq<char>) returns (n: nat, spins: bool)
      requires Valid()
      modifies buffer
      ensures n == W.PutCount(old(Value()), |data|) && n <= |data| && n <= old(Value()).Free()
      ensures Value() == Stored(old(Value()), data[..n])
      ensures spins <==> !PutEnds(old(Value()), |data|)
    {
      hide Stored, Blit, Phase, Copied, PutPass, Ahead, Advance, Ring.Free, PutPhase, PutEnds, W.PutCount;
      n, spins := 0, false;
      ghost var r := Value();
      PutEndsIff(r, |data|);
      StoredNothing(r);
      PutStart(r, |data|);
      if |data| > 0 {
        var p, left := head, |data|;
        while left > 0
          invariant n <= |data| && n < buffer.Length && p == Ahead(head, n, buffer.Length)
          invariant n <= r.Free() && PutPhase(r, |data|, n, left)
          invariant left <= 0 ==> n == W.PutCount(r, |data|) && PutEnds(r, |data|)
          invariant Value() == Stored(r, data[..n])
          decreases left
        {
          PutPassPhase(r, |data|, n, left);
          ghost var pass := PutPass(buffer.Length, tail, p, left);
          PutPassIs(buffer.Length, tail, p, left);
          var blen, io := buffer.Length - p, tail - p - 1;
          if io == 0 {
            break;
          } else if io > 0 || io + buffer.Length > 0 {
            var c: nat := Min(Min(left, if io > 0 then io else io + buffer.Length), blen);
            StoredStep(r, data, n, c);
            CopyIn(p, data[n..n + c]);
            p, left, n := Advance(p, c, buffer.Length), left - c - c, n + c;
          } else {
            return n, true;
          }
        }
      }
    }

    /** The requests on which the loop of put never ends */
    predicate PutSpins(len: nat)
      requires Valid()
      reads this, buffer
      ensures PutSpins(len) <==> !PutEnds(Value(), len)
    {
      PutEndsIff(Value(), len);
      tail == 0 && len > 2 * (buffer.Length - 1 - Length())
    }

    /** memcpy into the buffer */
    method CopyIn(p: nat, bytes: seq<char>)
      requires Valid() && p + |bytes| <= buffer.Length
      modifies buffer
      ensures Value() == Blit(old(Value()), p, bytes)
    {
      ghost var was := buffer[..];
      forall i | 0 <= i < |bytes| { buffer[p + i] := bytes[i]; }
      assert buffer[..] == was[..p] + bytes + was[p + |bytes|..];
    }

    /** get, into the len cells of an array from position off on */
    method Get(iov: array<char>, off: nat, len: int) returns (n: nat)
      requires Valid() && iov != buffer && off <= iov.Length && off + len <= iov.Length
      modifies iov
      ensures n == (if len > 0 then R.GetCount(Value(), len) else 0)
      ensures n <= |Value().Content()| && off + n <= iov.Length
      ensures iov[..] == Overlay(old(iov[..]), off, Value().Content()[..n])
    {
      hide Phase, Copied, Ahead, Advance, Ring.Length, Ring.Content, Overlay, GetPhase, R.GetCount;
      n := 0;
      ghost var r, was := Value(), iov[..];
      OverlayNothing(was, r.Content(), off);
      if len > 0 {
        GetStart(r, len);
        var p, left := tail, len;
        while left > 0
          invariant n <= len && n <= |r.Content()| && n < buffer.Length && p == Ahead(tail, n, buffer.Length)
          invariant GetPhase(r, len, n, left)
          invariant left <= 0 ==> n == R.GetCount(r, len)
          invariant off + n <= |was| && iov[..] == Overlay(was, off, r.Content()[..n])
          decreases left
        {
          GetPassPhase(r, len, n, left);
          var blen, io := buffer.Length - p, head - p;
          if io == 0 {
            break;
          } else if io > 0 || io + buffer.Length > 0 {
            var c: nat := Min(Min(left, if io > 0 then io else io + buffer.Length), blen);
            ContentRun(r, n, c);
            CopyOut(iov, off + n, p, c);
            OverlayStep(was, r.Content(), off, n, c);
            p, left, n := Advance(p, c, buffer.Length), left - c - c, n + c;
          }
        }
      }
    }

    /** memcpy out of the buffer */
    method CopyOut(iov: array<char>, at: nat, p: nat, c: nat)
      requires Valid() && iov != buffer && p + c <= buffer.Length && at + c <= iov.Length
      modifies iov
      ensures iov[..] == Overlay(old(iov[..]), at, buffer[p..p + c])
    {
      ghost var was := iov[..];
      forall i | 0 <= i < c { iov[at + i] := buffer[p + i]; }
      assert iov[..] == was[..at] + buffer[p..p + c] + was[at + c..];
    }

    // ----- writing

    /** signal_writer, where the device accepts the transfer or not */
    method SignalWriter(ok: bool) returns (r: int)
      requires W.Inv(AsWriter())
      modifies this
      ensures W.Step(old(AsWriter()), W.Signal(ok)) == Some(AsWriter()) && W.Inv(AsWriter())
      ensures r == 0 <==> old(IsEmpty()) || sending.Some?
    {
      hide Ring.Content, W.TransferOk, W.SignalWriter;
      W.SignalKeepsInv(AsWriter(), ok);
      SignalWriterCases(AsWriter(), ok);
      if IsEmpty() || permits == 0 {
        return 0;
      }
      permits := permits - 1;
      if IsEmpty() {
        // head and tail would be set to 0 here, but the ring cannot have become empty
        assert false;
      }
      var h: int, t: nat, blen := head, tail, buffer.Length - tail;
      var io := h - t;
      if active && (io > 0 || io + buffer.Length > 0) {
        var len := Min(Min(if io > 0 then io else io + buffer.Length, blen), (buffer.Length - 1) / 2);
        if len != 0 && ok {
          sending := Some(W.Transfer(t, buffer[t..t + len]));
          return 0;
        }
      }
      permits := permits + 1;
      r := -1;
    }

    /** send_notify */
    method SendNotify(len: nat)
      requires Valid()
      modifies this`tail, this`permits
      ensures Valid() && permits == old(permits) + 1
      ensures Value() == Rings.GetBump(old(Value()), Min(len, old(Value()).Length()))
    {
      if len > 0 {
        var _ := GetBump(len);
      }
      permits := permits + 1;
    }

    /** handle_write_stream for a transfer of which k bytes were sent */
    method HandleWrite(k: nat, ok: bool)
      requires W.Inv(AsWriter()) && sending.Some? && k <= |sending.value.bytes|
      modifies this
      ensures W.Step(old(AsWriter()), W.Complete(k, ok)) == Some(AsWriter()) && W.Inv(AsWriter())
    {
      hide Ring.Content, Rings.GetBump;
      ghost var w := AsWriter();
      sent := sent + W.Region(Value(), sending.value)[..k];
      sending := None;
      SendNotify(k);
      W.SentKeepsInv(w, k);
      assert AsWriter() == W.Sent(w, k);
      var _ := SignalWriter(ok);
    }

    /** put, put_bump and signal_writer under the lock */
    method WriteSection(data: seq<char>, ok: bool) returns (n: nat)
      requires W.Inv(AsWriter()) && active && !IsFull() && |data| > 0 && PutEnds(Value(), |data|)
      modifies this, buffer
      ensures W.Step(old(AsWriter()), W.Write(data, ok)) == Some(AsWriter()) && W.Inv(AsWriter())
      ensures 0 < n <= |data| && accepted == old(accepted) + data[..n]
    {
      hide Ring.Content, Rings.PutBump, Stored, W.PutCount, W.TransferOk;
      ghost var w := AsWriter();
      PutEndsIff(Value(), |data|);
      W.PutCountFits(Value(), |data|);
      var put, spins := Put(data);
      n := PutBump(put);
      accepted := accepted + data[..n];
      assert AsWriter() == W.Accept(w, data);
      W.AcceptKeepsInv(w, data);
      var _ := SignalWriter(ok);
    }

    /** What the device does, and whether the stream is closed, while the lock is free */
    method WriteWorld(turn: WriteTurn, ghost w: W.Writer, ghost run: seq<W.Event>) returns (ghost after: seq<W.Event>)
      requires W.Inv(w) && W.Run(w, run) == Some(AsWriter()) && W.Inv(AsWriter())
      modifies this
      ensures W.Run(w, after) == Some(AsWriter()) && W.Inv(AsWriter()) && accepted == old(accepted)
      ensures AsWriter() == WriterAfter(old(AsWriter()), turn) && run <= after
    {
      hide W.Run, W.Inv, W.Step;
      W.InvIsValid(w);
      W.InvIsValid(AsWriter());
      after := run;
      ghost var v := AsWriter();
      var i := 0;
      while i < |turn.completions|
        invariant i <= |turn.completions| && accepted == old(accepted) && run <= after
        invariant W.Run(w, after) == Some(AsWriter()) && W.Inv(AsWriter())
        invariant AsWriter() == Completed(v, turn.completions[..i])
      {
        var (k, ok) := turn.completions[i];
        CompletedOneMore(v, turn.completions, i);
        if sending.Some? && k <= |sending.value.bytes| {
          W.RunOneMore(w, after, W.Complete(k, ok));
          W.AcceptedOnlyByWrite(AsWriter(), W.Complete(k, ok));
          after := after + [W.Complete(k, ok)];
          HandleWrite(k, ok);
        }
        i := i + 1;
      }
      assert turn.completions[..i] == turn.completions;
      if turn.closed {
        W.RunOneMore(w, after, W.Close);
        W.CloseStep(AsWriter());
        after := after + [W.Close];
        active := false;
      }
    }

    /** The inner loop of write_data: wait until there is room, the stream is closed or the time is up. */
    method AwaitRoom(timed: bool, turns: seq<WriteTurn>, start: nat, ghost w: W.Writer, ghost before: seq<W.Event>)
      returns (at: nat, wait: Wait, ghost run: seq<W.Event>)
      requires start <= |turns| && W.Inv(w) && W.Run(w, before) == Some(AsWriter()) && W.Inv(AsWriter())
      modifies this
      ensures W.Run(w, run) == Some(AsWriter()) && W.Inv(AsWriter()) && accepted == old(accepted)
      ensures start <= at <= |turns| && Valid()
      ensures RoomAwaited(old(AsWriter()), timed, turns, start) == (at, wait, AsWriter())
      ensures at == start && wait == Ready <==> !old(active && IsFull())
      ensures start < at ==> before + [W.Signal(turns[start].started)] <= run
      ensures match wait
        case Ready => !active || !IsFull()
        case TimedOut => timed && IsFull() && start < at && turns[at - 1].timedOut
        case Blocked => at == |turns| && active && IsFull() && (start < at ==> !(timed && turns[at - 1].timedOut))
    {
      hide W.Run, W.Inv, W.Step, Ring.Free, WriterAfter, RoomAwaited, RoundAfter;
      at, run := start, before;
      W.InvIsValid(w);
      W.InvIsValid(AsWriter());
      ghost var v := AsWriter();
      while active && IsFull()
        invariant start <= at <= |turns| && Valid() && accepted == old(accepted)
        invariant W.Inv(AsWriter()) && W.Run(w, run) == Some(AsWriter())
        invariant RoomAwaited(v, timed, turns, start) == RoomAwaited(AsWriter(), timed, turns, at)
        invariant start < at ==> v.active && v.ring.Free() == 0
        invariant start < at && active && IsFull() ==> !(timed && turns[at - 1].timedOut)
        invariant if start < at then before + [W.Signal(turns[start].started)] <= run else run == before
        decreases |turns| - at
      {
        RoomAwaitedIs(AsWriter(), timed, turns, at);
        if at == |turns| {
          return at, Blocked, run;
        }
        RoundSteps(AsWriter(), turns[at]);
        var turn := turns[at];
        W.RunOneMore(w, run, W.Signal(turn.started));
        W.AcceptedOnlyByWrite(AsWriter(), W.Signal(turn.started));
        run := run + [W.Signal(turn.started)];
        var _ := SignalWriter(turn.started);
        run := WriteWorld(turn, w, run);
        W.InvIsValid(AsWriter());
        at := at + 1;
        if timed && turn.timedOut && IsFull() {
          return at, TimedOut, run;
        }
      }
      RoomAwaitedIs(AsWriter(), timed, turns, at);
      wait := Ready;
    }

    /** One piece of the request, and then what happens before write_data takes the lock again; nothing if no turn is
        left */
    method WritePiece(data: seq<char>, turns: seq<WriteTurn>, at: nat, ghost w: W.Writer, ghost before: seq<W.Event>)
      returns (n: nat, next: nat, ghost run: seq<W.Event>)
      requires W.Inv(AsWriter()) && active && !IsFull() && |data| > 0 && PutEnds(Value(), |data|) && at <= |turns|
      requires W.Inv(w) && W.Run(w, before) == Some(AsWriter())
      modifies this, buffer
      ensures W.Run(w, run) == Some(AsWriter()) && W.Inv(AsWriter())
      ensures 0 < n <= |data| && accepted == old(accepted) + data[..n]
      ensures next == if at < |turns| then at + 1 else at
      ensures before + [W.Write(data, at < |turns| && turns[at].started)] <= run
      ensures W.Inv(old(AsWriter())) && PieceWritten(old(AsWriter()), data, turns, at) == Some(AsWriter())
    {
      hide W.Run, W.Inv, W.Step, PutEnds, Ring.Free, WriterAfter;
      W.InvIsValid(w);
      W.InvIsValid(AsWriter());
      ghost var v := AsWriter();
      var started := at < |turns| && turns[at].started;
      W.RunOneMore(w, before, W.Write(data, started));
      run, next := before + [W.Write(data, started)], at;
      n := WriteSection(data, started);
      if at < |turns| {
        run := WriteWorld(turns[at], w, run);
        next := at + 1;
      }
    }

    /**
     * write_data against what happens at each release of the lock. The run out-parameter is the run of the writing
     * machine that this call is.
     */
    method WriteData(data: seq<char>, timed: bool, turns: seq<WriteTurn>)
      returns (outcome: Outcome, count: nat, ghost run: seq<W.Event>, ghost used: nat)
      requires W.Inv(AsWriter())
      modifies this, buffer
      ensures W.Inv(AsWriter()) && W.Run(old(AsWriter()), run) == Some(AsWriter())
      ensures count <= |data| && accepted == old(accepted) + data[..count]
      ensures used <= |turns|
      ensures outcome.Returned? ==> outcome.value == count || (outcome.value == -1 && !active)
      ensures outcome.Returned? && outcome.value >= 0 && (outcome.value < |data| || !active) ==>
        timed && IsFull() && used > 0 && turns[used - 1].timedOut
      ensures outcome.Waiting? ==> active && IsFull() && used == |turns| && count < |data|
      ensures outcome.Hung? ==> active && !IsFull() && !PutEnds(Value(), |data| - count)
      ensures WriteResult(outcome, count, used, AsWriter()) == WriteCall(old(AsWriter()), data, 0, timed, turns, 0)
    {
      hide W.Run, W.Inv, W.Step, PutEnds, Ring.Free, Ring.Length, Ring.Content, RoomAwaited, PieceWritten, WriteCall;
      ghost var w := AsWriter();
      W.InvIsValid(w);
      run, count, used := [], 0, 0;
      assert W.Run(w, []) == Some(w) by { W.RunNothing(w); }
      var at := 0;
      while count < |data|
        invariant used == at
        invariant count <= |data| && at <= |turns| && accepted == old(accepted) + data[..count]
        invariant W.Inv(AsWriter()) && W.Run(w, run) == Some(AsWriter())
        invariant WriteCall(w, data, 0, timed, turns, 0) == WriteCall(AsWriter(), data, count, timed, turns, at)
        decreases |data| - count
      {
        WriteCallIs(AsWriter(), data, count, timed, turns, at);
        W.InvIsValid(AsWriter());
        if !active {
          break;
        }
        var wait: Wait;
        at, wait, run := AwaitRoom(timed, turns, at, w, run);
        used := at;
        if wait != Ready {
          return if wait.TimedOut? then Returned(count) else Waiting, count, run, used;
        }
        if !active {
          break;
        }
        PieceIsWrittenIff(AsWriter(), data[count..], turns, at);
        if PutSpins(|data| - count) {
          return Hung, count, run, used;
        }
        var n: nat;
        n, at, run := WritePiece(data[count..], turns, at, w, run);
        assert data[..count] + data[count..][..n] == data[..count + n];
        count, used := count + n, at;
      }
      WriteCallIs(AsWriter(), data, count, timed, turns, at);
      W.InvIsValid(AsWriter());
      outcome := Returned(if active then count else -1);
    }

    // ----- reading

    /** signal_reader, where the device accepts the transfer or not */
    method SignalReader(ok: bool) returns (r: int)
      requires R.Inv(AsReader())
      modifies this
      ensures R.Step(old(AsReader()), R.Signal(ok)) == Some(AsReader()) && R.Inv(AsReader())
      ensures r == 0 <==> old(IsFull()) || receiving.Some?
    {
      hide Ring.Content, R.RegionOk, R.SignalReader;
      R.SignalKeepsInv(AsReader(), ok);
      SignalReaderCases(AsReader(), ok);
      if IsFull() || permits == 0 {
        return 0;
      }
      permits := permits - 1;
      if IsEmpty() {
        head, tail := 0, 0;
      }
      var h: int, t: int, blen := head, tail, buffer.Length - head;
      var io := t - h - 1;
      if active && (io > 0 || io + buffer.Length > 0) {
        var len := Min(Min(if io > 0 then io else io + buffer.Length, blen), (buffer.Length - 1) / 2);
        if len != 0 && ok {
          receiving := Some(R.Region(head, len));
          return 0;
        }
      }
      permits := permits + 1;
      r := -1;
    }

    /** recv_notify */
    method RecvNotify(len: nat)
      requires Valid()
      modifies this`head, this`permits
      ensures Valid() && permits == old(permits) + 1
      ensures Value() == Rings.PutBump(old(Value()), Min(len, old(Value()).Free()))
    {
      if len > 0 {
        var _ := PutBump(len);
      }
      permits := permits + 1;
    }

    /** handle_read_stream for a transfer that brought k bytes */
    method HandleRead(k: nat, ok: bool)
      requires R.Inv(AsReader()) && receiving.Some? && k <= receiving.value.len
      modifies this
      ensures R.Step(old(AsReader()), R.Complete(k, ok)) == Some(AsReader()) && R.Inv(AsReader())
    {
      hide Ring.Content, Rings.PutBump;
      ghost var r := AsReader();
      received := received + buffer[receiving.value.start..receiving.value.start + k];
      receiving := None;
      RecvNotify(k);
      R.ReceivedKeepsInv(r, k);
      assert AsReader() == R.Received(r, k);
      var _ := SignalReader(ok);
    }

    /** A byte of a transfer in flight: the device writes the buffer without the lock. */
    method DeviceStore(i: nat, c: char)
      requires R.Inv(AsReader()) && receiving.Some?
      requires receiving.value.start <= i < receiving.value.start + receiving.value.len
      modifies buffer
      ensures R.Step(old(AsReader()), R.Store(i, c)) == Some(AsReader()) && R.Inv(AsReader())
    {
      hide Ring.Content;
      R.StoreKeepsInv(AsReader(), i, c);
      ghost var was := buffer[..];
      buffer[i] := c;
      assert buffer[..] == was[i := c];
    }

    /** get, get_bump and signal_reader under the lock */
    method ReadSection(iov: array<char>, off: nat, len: nat, ok: bool) returns (n: nat)
      requires R.Inv(AsReader()) && active && !IsEmpty() && len > 0 && iov != buffer && off + len <= iov.Length
      modifies this, iov
      ensures R.Step(old(AsReader()), R.Read(len, ok)) == Some(AsReader()) && R.Inv(AsReader())
      ensures 0 < n <= len && n <= |old(Value()).Content()| && returned == old(returned) + old(Value()).Content()[..n]
      ensures iov[..] == Overlay(old(iov[..]), off, old(Value()).Content()[..n])
    {
      hide Ring.Content, Rings.GetBump, R.GetCount, Overlay;
      ghost var r := AsReader();
      R.GetCountFits(Value(), len);
      var got := Get(iov, off, len);
      n := GetBump(got);
      returned := returned + r.ring.Content()[..n];
      assert AsReader() == R.Take(r, len);
      R.TakeKeepsInv(r, len);
      var _ := SignalReader(ok);
    }

    /** What the device does, and whether the stream is closed, while the lock is free */
    method ReadWorld(turn: ReadTurn, ghost r: R.Reader, ghost run: seq<R.Event>) returns (ghost after: seq<R.Event>)
      requires R.Inv(r) && R.Run(r, run) == Some(AsReader()) && R.Inv(AsReader())
      modifies this, buffer
      ensures R.Run(r, after) == Some(AsReader()) && R.Inv(AsReader()) && returned == old(returned)
      ensures AsReader() == ReaderAfter(old(AsReader()), turn) && run <= after
    {
      hide R.Run, R.Inv, R.Step;
      R.InvIsValid(r);
      R.InvIsValid(AsReader());
      after := run;
      ghost var v := AsReader();
      var i := 0;
      while i < |turn.actions|
        invariant i <= |turn.actions| && returned == old(returned) && run <= after
        invariant R.Run(r, after) == Some(AsReader()) && R.Inv(AsReader())
        invariant AsReader() == Acted(v, turn.actions[..i])
      {
        ActedOneMore(v, turn.actions, i);
        after := DeviceActs(turn.actions[i], r, after);
        i := i + 1;
      }
      assert turn.actions[..i] == turn.actions;
      if turn.closed {
        R.RunOneMore(r, after, R.Close);
        R.CloseStep(AsReader());
        after := after + [R.Close];
        active := false;
      }
    }

    method DeviceActs(action: DeviceAction, ghost r: R.Reader, ghost run: seq<R.Event>) returns (ghost after: seq<R.Event>)
      requires R.Inv(r) && R.Run(r, run) == Some(AsReader()) && R.Inv(AsReader())
      modifies this, buffer
      ensures R.Run(r, after) == Some(AsReader()) && R.Inv(AsReader()) && returned == old(returned)
      ensures AsReader() == ActedOnce(old(AsReader()), action) && run <= after
    {
      hide R.Run, R.Inv, R.Step;
      R.InvIsValid(r);
      R.InvIsValid(AsReader());
      ActionSteps(AsReader(), action);
      after := run;
      match action
      case Stores(i, c) =>
        if receiving.Some? && receiving.value.start <= i < receiving.value.start + receiving.value.len {
          R.RunOneMore(r, run, R.Store(i, c));
          R.ReturnedOnlyByRead(AsReader(), R.Store(i, c));
          after := run + [R.Store(i, c)];
          DeviceStore(i, c);
        }
      case Completes(k, ok) =>
        if receiving.Some? && k <= receiving.value.len {
          R.RunOneMore(r, run, R.Complete(k, ok));
          R.ReturnedOnlyByRead(AsReader(), R.Complete(k, ok));
          after := run + [R.Complete(k, ok)];
          HandleRead(k, ok);
        }
    }

    /** The inner loop of read_data: wait until there are bytes, the stream is closed or the time is up. */
    method AwaitBytes(timed: bool, turns: seq<ReadTurn>, start: nat, ghost r: R.Reader, ghost before: seq<R.Event>)
      returns (at: nat, wait: Wait, ghost run: seq<R.Event>)
      requires start <= |turns| && R.Inv(r) && R.Run(r, before) == Some(AsReader()) && R.Inv(AsReader())
      modifies this, buffer
      ensures R.Run(r, run) == Some(AsReader()) && R.Inv(AsReader()) && returned == old(returned)
      ensures start <= at <= |turns| && Valid()
      ensures BytesAwaited(old(AsReader()), timed, turns, start) == (at, wait, AsReader())
      ensures at == start && wait == Ready <==> !old(active && IsEmpty())
      ensures start < at ==> before + [R.Signal(turns[start].started)] <= run
      ensures match wait
        case Ready => !active || !IsEmpty()
        case TimedOut => timed && IsEmpty() && start < at && turns[at - 1].timedOut
        case Blocked => at == |turns| && active && IsEmpty() && (start < at ==> !(timed && turns[at - 1].timedOut))
    {
      hide R.Run, R.Inv, R.Step, Ring.Length, ReaderAfter, BytesAwaited, ReadRoundAfter;
      at, run := start, before;
      R.InvIsValid(r);
      R.InvIsValid(AsReader());
      ghost var v := AsReader();
      while active && IsEmpty()
        invariant start <= at <= |turns| && Valid() && returned == old(returned)
        invariant R.Inv(AsReader()) && R.Run(r, run) == Some(AsReader())
        invariant BytesAwaited(v, timed, turns, start) == BytesAwaited(AsReader(), timed, turns, at)
        invariant start < at ==> v.active && v.ring.Length() == 0
        invariant start < at && active && IsEmpty() ==> !(timed && turns[at - 1].timedOut)
        invariant if start < at then before + [R.Signal(turns[start].started)] <= run else run == before
        decreases |turns| - at
      {
        BytesAwaitedIs(AsReader(), timed, turns, at);
        if at == |turns| {
          return at, Blocked, run;
        }
        ReadRoundSteps(AsReader(), turns[at]);
        var turn := turns[at];
        R.RunOneMore(r, run, R.Signal(turn.started));
        R.ReturnedOnlyByRead(AsReader(), R.Signal(turn.started));
        run := run + [R.Signal(turn.started)];
        var _ := SignalReader(turn.started);
        run := ReadWorld(turn, r, run);
        R.InvIsValid(AsReader());
        at := at + 1;
        if timed && turn.timedOut && IsEmpty() {
          return at, TimedOut, run;
        }
      }
      BytesAwaitedIs(AsReader(), timed, turns, at);
      wait := Ready;
    }

    /** One piece of what is asked for, and then what happens before read_data takes the lock again; nothing if no
        turn is left */
    method ReadPiece(
        iov: array<char>, off: nat, turns: seq<ReadTurn>, at: nat, ghost r: R.Reader, ghost before: seq<R.Event>)
      returns (n: nat, next: nat, ghost run: seq<R.Event>)
      requires R.Inv(AsReader()) && active && !IsEmpty() && iov != buffer && off < iov.Length && at <= |turns|
      requires R.Inv(r) && R.Run(r, before) == Some(AsReader())
      modifies this, buffer, iov
      ensures R.Run(r, run) == Some(AsReader()) && R.Inv(AsReader())
      ensures n <= |old(Value()).Content()| && returned == old(returned) + old(Value()).Content()[..n]
      ensures 0 < n <= iov.Length - off && iov[..] == Overlay(old(iov[..]), off, old(Value()).Content()[..n])
      ensures next == if at < |turns| then at + 1 else at
      ensures before + [R.Read(iov.Length - off, at < |turns| && turns[at].started)] <= run
      ensures R.Inv(old(AsReader())) && PieceRead(old(AsReader()), iov.Length - off, turns, at) == Some(AsReader())
    {
      hide R.Run, R.Inv, R.Step, Ring.Length, Ring.Content, Overlay, ReaderAfter;
      R.InvIsValid(r);
      R.InvIsValid(AsReader());
      var len, started := iov.Length - off, at < |turns| && turns[at].started;
      R.RunOneMore(r, before, R.Read(len, started));
      run, next := before + [R.Read(len, started)], at;
      n := ReadSection(iov, off, len, started);
      if at < |turns| {
        run := ReadWorld(turns[at], r, run);
        next := at + 1;
      }
    }

    /**
     * read_data against what happens at each release of the lock. The run out-parameter is the run of the reading
     * machine that this call is.
     */
    method ReadData(iov: array<char>, timed: bool, turns: seq<ReadTurn>)
      returns (outcome: Outcome, count: nat, ghost run: seq<R.Event>, ghost used: nat)
      requires R.Inv(AsReader()) && iov != buffer
      modifies this, buffer, iov
      ensures R.Inv(AsReader()) && R.Run(old(AsReader()), run) == Some(AsReader())
      ensures count <= iov.Length && returned == old(returned) + iov[..count] && iov[count..] == old(iov[count..])
      ensures used <= |turns|
      ensures outcome.Returned? ==> outcome.value == count || (outcome.value == -1 && !active)
      ensures outcome.Returned? && outcome.value >= 0 && (outcome.value < iov.Length || !active) ==>
        timed && IsEmpty() && used > 0 && turns[used - 1].timedOut
      ensures outcome.Waiting? ==> active && IsEmpty() && used == |turns| && count < iov.Length
      ensures ReadResult(outcome, count, used, AsReader()) == ReadCall(old(AsReader()), iov.Length, 0, timed, turns, 0)
      ensures !outcome.Hung?
    {
      hide R.Run, R.Inv, R.Step, Ring.Free, Ring.Length, Ring.Content, Overlay, BytesAwaited, PieceRead, ReadCall;
      ghost var r, was := AsReader(), iov[..];
      R.InvIsValid(r);
      run, count, used := [], 0, 0;
      assert R.Run(r, []) == Some(r) by { R.RunNothing(r); }
      var at := 0;
      while count < iov.Length
        invariant used == at
        invariant count <= iov.Length && at <= |turns| && returned == old(returned) + iov[..count]
        invariant iov[count..] == was[count..]
        invariant R.Inv(AsReader()) && R.Run(r, run) == Some(AsReader())
        invariant
          ReadCall(r, iov.Length, 0, timed, turns, 0) == ReadCall(AsReader(), iov.Length, count, timed, turns, at)
        decreases iov.Length - count
      {
        ReadCallIs(AsReader(), iov.Length, count, timed, turns, at);
        R.InvIsValid(AsReader());
        if !active {
          break;
        }
        var wait: Wait;
        at, wait, run := AwaitBytes(timed, turns, at, r, run);
        used := at;
        if wait != Ready {
          return if wait.TimedOut? then Returned(count) else Waiting, count, run, used;
        }
        if !active {
          break;
        }
        ghost var before, content := iov[..], Value().Content();
        var n: nat;
        n, at, run := ReadPiece(iov, count, turns, at, r, run);
        OverlayExtends(before, count, content[..n], was);
        count, used := count + n, at;
      }
      ReadCallIs(AsReader(), iov.Length, count, timed, turns, at);
      R.InvIsValid(AsReader());
      outcome := Returned(if active then count else -1);
    }
  }

  // ----- what happens while a call has released the lock

  /** Transfers of the device that complete, a close, a timeout */
  datatype WriteTurn = WriteTurn(started: bool, completions: seq<(nat, bool)>, closed: bool, timedOut: bool)

  datatype DeviceAction = Stores(i: nat, c: char) | Completes(k: nat, ok: bool)

  datatype ReadTurn = ReadTurn(started: bool, actions: seq<DeviceAction>, closed: bool, timedOut: bool)

  datatype Wait = Ready | TimedOut | Blocked

  /** Hung is the loop of put that never ends, Waiting a call still blocked after all turns. */
  datatype Outcome = Returned(value: int) | Hung | Waiting

  /** The writer after some completions, of which those count that fit the transfer in flight */
  ghost function Completed(w: W.Writer, completions: seq<(nat, bool)>): (v: W.Writer)
    requires W.Inv(w)
    ensures W.Inv(v)
  {
    if completions == [] then w
    else
      var u, last := Completed(w, completions[..|completions| - 1]), completions[|completions| - 1];
      W.InvIsValid(u);
      W.StepKeepsInv(u, W.Complete(last.0, last.1));
      match W.Step(u, W.Complete(last.0, last.1))
      case None => u
      case Some(v) => v
  }

  /** The writer after what happens while the lock is free */
  ghost function WriterAfter(w: W.Writer, turn: WriteTurn): (v: W.Writer)
    requires W.Inv(w)
    ensures W.Inv(v)
  {
    var v := Completed(w, turn.completions);
    W.CloseStep(v);
    if turn.closed then v.(active := false) else v
  }

  /** The writer after a round of the inner loop of write_data: the device is signalled, then the lock is free. */
  ghost function RoundAfter(w: W.Writer, turn: WriteTurn): (v: W.Writer)
    requires W.Inv(w)
    ensures W.Inv(v)
  {
    W.InvIsValid(w);
    W.SignalKeepsInv(w, turn.started);
    WriterAfter(W.SignalWriter(w, turn.started), turn)
  }

  /** How the inner loop of write_data ends that begins with the turn at: the next turn, why, and the writer */
  ghost function RoomAwaited(w: W.Writer, timed: bool, turns: seq<WriteTurn>, at: nat): (r: (nat, Wait, W.Writer))
    requires W.Inv(w) && at <= |turns|
    ensures at <= r.0 <= |turns| && W.Inv(r.2)
    decreases |turns| - at
  {
    W.InvIsValid(w);
    if !w.active || w.ring.Free() > 0 then (at, Ready, w)
    else if at == |turns| then (at, Blocked, w)
    else
      var v := RoundAfter(w, turns[at]);
      W.InvIsValid(v);
      if timed && turns[at].timedOut && v.ring.Free() == 0 then (at + 1, TimedOut, v)
      else RoomAwaited(v, timed, turns, at + 1)
  }

  /** The writer after a write of data, and after what happens then if it has a turn; None where put never ends */
  ghost function PieceWritten(w: W.Writer, data: seq<char>, turns: seq<WriteTurn>, at: nat): (r: Option<W.Writer>)
    requires W.Inv(w)
    ensures r.Some? ==> W.Inv(r.value)
  {
    W.InvIsValid(w);
    var e := W.Write(data, at < |turns| && turns[at].started);
    W.StepKeepsInv(w, e);
    match W.Step(w, e)
    case None => None
    case Some(v) => Some(if at < |turns| then WriterAfter(v, turns[at]) else v)
  }

  /** What write_data comes to from its outer loop on, with count bytes accepted before the turn at */
  ghost function WriteCall(w: W.Writer, data: seq<char>, count: nat, timed: bool, turns: seq<WriteTurn>, at: nat):
      (r: WriteResult)
    requires W.Inv(w) && count <= |data| && at <= |turns|
    ensures W.Inv(r.w)
    decreases |data| - count
  {
    if count == |data| || !w.active then WriteResult(Returned(if w.active then count else -1), count, at, w)
    else
      var (next, wait, v) := RoomAwaited(w, timed, turns, at);
      if wait == TimedOut then WriteResult(Returned(count), count, next, v)
      else if wait == Blocked then WriteResult(Waiting, count, next, v)
      else if !v.active then WriteResult(Returned(-1), count, next, v)
      else
        match PieceWritten(v, data[count..], turns, next)
        case None => WriteResult(Hung, count, next, v)
        case Some(u) =>
          PieceGrows(v, data[count..], turns, next);
          var n := |u.accepted| - |v.accepted|;
          WriteCall(u, data, count + n, timed, turns, if next < |turns| then next + 1 else next)
  }

  /** With room and an open stream, a piece is written exactly where put comes to an end. */
  lemma PieceIsWrittenIff(w: W.Writer, data: seq<char>, turns: seq<WriteTurn>, at: nat)
    requires W.Inv(w) && w.active && w.ring.Valid() && w.ring.Free() > 0 && |data| > 0
    ensures PieceWritten(w, data, turns, at).Some? <==> PutEnds(w.ring, |data|)
  {
    W.WriteOutcome(w, data, at < |turns| && turns[at].started);
  }

  /** The inner loop, unfolded once */
  lemma RoomAwaitedIs(w: W.Writer, timed: bool, turns: seq<WriteTurn>, at: nat)
    requires W.Inv(w) && at <= |turns|
    ensures w.ring.Valid() && (at < |turns| ==> RoundAfter(w, turns[at]).ring.Valid())
    ensures RoomAwaited(w, timed, turns, at) ==
      if !w.active || w.ring.Free() > 0 then (at, Ready, w)
      else if at == |turns| then (at, Blocked, w)
      else
        var v := RoundAfter(w, turns[at]);
        if timed && turns[at].timedOut && v.ring.Free() == 0 then (at + 1, TimedOut, v)
        else RoomAwaited(v, timed, turns, at + 1)
  {
    hide W.Inv, RoundAfter;
    W.InvIsValid(w);
    if at < |turns| { W.InvIsValid(RoundAfter(w, turns[at])); }
  }

  /** The outer loop, unfolded once */
  lemma WriteCallIs(w: W.Writer, data: seq<char>, count: nat, timed: bool, turns: seq<WriteTurn>, at: nat)
    requires W.Inv(w) && count <= |data| && at <= |turns|
    ensures count == |data| || !w.active ==>
      WriteCall(w, data, count, timed, turns, at) ==
      WriteResult(Returned(if w.active then count else -1), count, at, w)
    ensures count < |data| && w.active ==>
      var (next, wait, v) := RoomAwaited(w, timed, turns, at);
      var r, p := WriteCall(w, data, count, timed, turns, at), PieceWritten(v, data[count..], turns, next);
      if wait == TimedOut then r == WriteResult(Returned(count), count, next, v)
      else if wait == Blocked then r == WriteResult(Waiting, count, next, v)
      else if !v.active then r == WriteResult(Returned(-1), count, next, v)
      else if p == None then r == WriteResult(Hung, count, next, v)
      else
        var n: int := |p.value.accepted| - |v.accepted|;
        0 < n <= |data| - count &&
        r == WriteCall(p.value, data, count + n, timed, turns, if next < |turns| then next + 1 else next)
  {
    hide PieceWritten, RoomAwaited, W.Inv;
    if count < |data| && w.active {
      var (next, wait, v) := RoomAwaited(w, timed, turns, at);
      var p := PieceWritten(v, data[count..], turns, next);
      if p.Some? { PieceGrows(v, data[count..], turns, next); }
    }
  }

  datatype WriteResult = WriteResult(outcome: Outcome, count: nat, used: nat, w: W.Writer)

  lemma {:induction false} CompletedAcceptsNothing(w: W.Writer, completions: seq<(nat, bool)>)
    requires W.Inv(w)
    ensures Completed(w, completions).accepted == w.accepted && Completed(w, completions).active == w.active
    ensures |Completed(w, completions).ring.buffer| == |w.ring.buffer|
  {
    hide W.Inv, W.Step;
    if completions != [] {
      var n := |completions| - 1;
      CompletedAcceptsNothing(w, completions[..n]);
      CompletedOneMore(w, completions, n);
      var u := Completed(w, completions[..n]);
      assert completions[..n + 1] == completions;
      if u.transfer.Some? && completions[n].0 <= |u.transfer.value.bytes| {
        W.CompletionOutcome(u, completions[n].0, completions[n].1);
      }
    }
  }

  lemma PieceGrows(w: W.Writer, data: seq<char>, turns: seq<WriteTurn>, at: nat)
    requires W.Inv(w) && PieceWritten(w, data, turns, at).Some?
    ensures var v := PieceWritten(w, data, turns, at).value;
      && |w.accepted| < |v.accepted| <= |w.accepted| + |data|
      && |v.ring.buffer| == |w.ring.buffer| && (at < |turns| && !turns[at].closed ==> v.active)
  {
    hide Ring.Content, W.TransferOk;
    var ok := at < |turns| && turns[at].started;
    W.WriteOutcome(w, data, ok);
    W.StepKeepsInv(w, W.Write(data, ok));
    if at < |turns| { CompletedAcceptsNothing(W.Step(w, W.Write(data, ok)).value, turns[at].completions); }
  }

  lemma CompletedOneMore(w: W.Writer, completions: seq<(nat, bool)>, i: nat)
    requires W.Inv(w) && i < |completions|
    ensures Completed(w, completions[..i]).ring.Valid()
    ensures var u, (k, ok) := Completed(w, completions[..i]), completions[i];
      var r := W.Step(u, W.Complete(k, ok));
      && (r.Some? <==> u.transfer.Some? && k <= |u.transfer.value.bytes|)
      && Completed(w, completions[..i + 1]) == if r.Some? then r.value else u
  {
    assert completions[..i + 1][..i] == completions[..i];
    W.InvIsValid(Completed(w, completions[..i]));
    hide W.SignalWriter, W.Sent, Ring.Content;
  }

  lemma RoundSteps(w: W.Writer, turn: WriteTurn)
    requires W.Inv(w)
    ensures w.ring.Valid() && W.Inv(W.SignalWriter(w, turn.started)) && W.Inv(RoundAfter(w, turn))
    ensures RoundAfter(w, turn).ring.Valid()
    ensures W.Step(w, W.Signal(turn.started)) == Some(W.SignalWriter(w, turn.started))
    ensures RoundAfter(w, turn) == WriterAfter(W.SignalWriter(w, turn.started), turn)
  {
    W.SignalKeepsInv(w, turn.started);
    W.InvIsValid(RoundAfter(w, turn));
    hide W.Inv, W.SignalWriter, WriterAfter;
  }

  /** What one action of the device does, if it fits the transfer in flight */
  ghost function ActedOnce(r: R.Reader, action: DeviceAction): (s: R.Reader)
    requires R.Inv(r)
    ensures R.Inv(s)
  {
    R.InvIsValid(r);
    var e := if action.Stores? then R.Store(action.i, action.c) else R.Complete(action.k, action.ok);
    R.StepKeepsInv(r, e);
    match R.Step(r, e)
    case None => r
    case Some(s) => s
  }

  ghost function Acted(r: R.Reader, actions: seq<DeviceAction>): (s: R.Reader)
    requires R.Inv(r)
    ensures R.Inv(s)
  {
    if actions == [] then r else ActedOnce(Acted(r, actions[..|actions| - 1]), actions[|actions| - 1])
  }

  /** The reader after what happens while the lock is free */
  ghost function ReaderAfter(r: R.Reader, turn: ReadTurn): (s: R.Reader)
    requires R.Inv(r)
    ensures R.Inv(s)
  {
    var s := Acted(r, turn.actions);
    R.CloseStep(s);
    if turn.closed then s.(active := false) else s
  }

  /** The reader after a round of the inner loop of read_data */
  ghost function ReadRoundAfter(r: R.Reader, turn: ReadTurn): (s: R.Reader)
    requires R.Inv(r)
    ensures R.Inv(s)
  {
    R.InvIsValid(r);
    R.SignalKeepsInv(r, turn.started);
    ReaderAfter(R.SignalReader(r, turn.started), turn)
  }

  /** How the inner loop of read_data ends that begins with the turn at: the next turn, why, and the reader */
  ghost function BytesAwaited(r: R.Reader, timed: bool, turns: seq<ReadTurn>, at: nat): (s: (nat, Wait, R.Reader))
    requires R.Inv(r) && at <= |turns|
    ensures at <= s.0 <= |turns| && R.Inv(s.2)
    decreases |turns| - at
  {
    R.InvIsValid(r);
    if !r.active || r.ring.Length() > 0 then (at, Ready, r)
    else if at == |turns| then (at, Blocked, r)
    else
      var s := ReadRoundAfter(r, turns[at]);
      R.InvIsValid(s);
      if timed && turns[at].timedOut && s.ring.Length() == 0 then (at + 1, TimedOut, s)
      else BytesAwaited(s, timed, turns, at + 1)
  }

  /** The reader after a read of len bytes, and after what happens then if it has a turn */
  ghost function PieceRead(r: R.Reader, len: nat, turns: seq<ReadTurn>, at: nat): (o: Option<R.Reader>)
    requires R.Inv(r)
    ensures o.Some? ==> R.Inv(o.value)
  {
    R.InvIsValid(r);
    var e := R.Read(len, at < |turns| && turns[at].started);
    R.StepKeepsInv(r, e);
    match R.Step(r, e)
    case None => None
    case Some(s) => Some(if at < |turns| then ReaderAfter(s, turns[at]) else s)
  }

  /** What read_data of len bytes comes to from its outer loop on, with count bytes returned before the turn at */
  ghost function ReadCall(r: R.Reader, len: nat, count: nat, timed: bool, turns: seq<ReadTurn>, at: nat):
      (result: ReadResult)
    requires R.Inv(r) && count <= len && at <= |turns|
    ensures R.Inv(result.r)
    decreases len - count
  {
    if count == len || !r.active then ReadResult(Returned(if r.active then count else -1), count, at, r)
    else
      var (next, wait, s) := BytesAwaited(r, timed, turns, at);
      if wait == TimedOut then ReadResult(Returned(count), count, next, s)
      else if wait == Blocked then ReadResult(Waiting, count, next, s)
      else if !s.active then ReadResult(Returned(-1), count, next, s)
      else
        match PieceRead(s, len - count, turns, next)
        case None => ReadResult(Hung, count, next, s)
        case Some(u) =>
          PieceReadGrows(s, len - count, turns, next);
          var n := |u.returned| - |s.returned|;
          ReadCall(u, len, count + n, timed, turns, if next < |turns| then next + 1 else next)
  }

  /** The inner loop, unfolded once */
  lemma BytesAwaitedIs(r: R.Reader, timed: bool, turns: seq<ReadTurn>, at: nat)
    requires R.Inv(r) && at <= |turns|
    ensures r.ring.Valid() && (at < |turns| ==> ReadRoundAfter(r, turns[at]).ring.Valid())
    ensures BytesAwaited(r, timed, turns, at) ==
      if !r.active || r.ring.Length() > 0 then (at, Ready, r)
      else if at == |turns| then (at, Blocked, r)
      else
        var s := ReadRoundAfter(r, turns[at]);
        if timed && turns[at].timedOut && s.ring.Length() == 0 then (at + 1, TimedOut, s)
        else BytesAwaited(s, timed, turns, at + 1)
  {
    hide R.Inv, ReadRoundAfter;
    R.InvIsValid(r);
    if at < |turns| { R.InvIsValid(ReadRoundAfter(r, turns[at])); }
  }

  /** The outer loop, unfolded once */
  lemma ReadCallIs(r: R.Reader, len: nat, count: nat, timed: bool, turns: seq<ReadTurn>, at: nat)
    requires R.Inv(r) && count <= len && at <= |turns|
    ensures count == len || !r.active ==>
      ReadCall(r, len, count, timed, turns, at) == ReadResult(Returned(if r.active then count else -1), count, at, r)
    ensures count < len && r.active ==>
      var (next, wait, s) := BytesAwaited(r, timed, turns, at);
      var result, p := ReadCall(r, len, count, timed, turns, at), PieceRead(s, len - count, turns, next);
      if wait == TimedOut then result == ReadResult(Returned(count), count, next, s)
      else if wait == Blocked then result == ReadResult(Waiting, count, next, s)
      else if !s.active then result == ReadResult(Returned(-1), count, next, s)
      else if p == None then result == ReadResult(Hung, count, next, s)
      else
        var n: int := |p.value.returned| - |s.returned|;
        0 < n <= len - count &&
        result == ReadCall(p.value, len, count + n, timed, turns, if next < |turns| then next + 1 else next)
  {
    hide PieceRead, BytesAwaited, R.Inv;
    if count < len && r.active {
      var (next, wait, s) := BytesAwaited(r, timed, turns, at);
      var p := PieceRead(s, len - count, turns, next);
      if p.Some? { PieceReadGrows(s, len - count, turns, next); }
    }
  }

  datatype ReadResult = ReadResult(outcome: Outcome, count: nat, used: nat, r: R.Reader)

  lemma ActedReturnsNothing(r: R.Reader, action: DeviceAction)
    requires R.Inv(r)
    ensures var s := ActedOnce(r, action);
      s.returned == r.returned && s.active == r.active && |s.ring.buffer| == |r.ring.buffer|
      && s.ring.Valid() && r.ring.Valid() && s.ring.Length() >= r.ring.Length()
    ensures r.transfer.Some? && action.Completes? && action.k <= r.transfer.value.len ==>
      ActedOnce(r, action).ring.Length() == r.ring.Length() + action.k
  {
    ActionSteps(r, action);
    R.InvIsValid(ActedOnce(r, action));
    if r.transfer.Some? && action.Completes? && action.k <= r.transfer.value.len {
      R.CompletionOutcome(r, action.k, action.ok);
    }
    hide R.Inv, Ring.Content, R.SignalReader, R.Received;
  }

  lemma {:induction false} AllActedReturnNothing(r: R.Reader, actions: seq<DeviceAction>)
    requires R.Inv(r)
    ensures var s := Acted(r, actions);
      s.returned == r.returned && s.active == r.active && |s.ring.buffer| == |r.ring.buffer|
      && s.ring.Valid() && r.ring.Valid() && s.ring.Length() >= r.ring.Length()
    ensures r.transfer.Some? && |actions| > 0 && actions[0].Completes? && actions[0].k <= r.transfer.value.len ==>
      Acted(r, actions).ring.Length() >= r.ring.Length() + actions[0].k
  {
    hide R.Inv, ActedOnce;
    R.InvIsValid(r);
    if actions != [] {
      var n := |actions| - 1;
      AllActedReturnNothing(r, actions[..n]);
      ActedReturnsNothing(Acted(r, actions[..n]), actions[n]);
      if n > 0 { assert actions[..n][0] == actions[0]; } else { assert actions[..n] == []; }
    }
  }

  lemma PieceReadGrows(r: R.Reader, len: nat, turns: seq<ReadTurn>, at: nat)
    requires R.Inv(r) && PieceRead(r, len, turns, at).Some?
    ensures var s := PieceRead(r, len, turns, at).value;
      && |r.returned| < |s.returned| <= |r.returned| + len
      && |s.ring.buffer| == |r.ring.buffer| && (at < |turns| && !turns[at].closed ==> s.active)
  {
    hide Ring.Content, R.RegionOk;
    var ok := at < |turns| && turns[at].started;
    R.ReadOutcome(r, len, ok);
    R.StepKeepsInv(r, R.Read(len, ok));
    if at < |turns| { AllActedReturnNothing(R.Step(r, R.Read(len, ok)).value, turns[at].actions); }
  }

  lemma ActionSteps(r: R.Reader, action: DeviceAction)
    requires R.Inv(r)
    ensures r.ring.Valid()
    ensures r.transfer == None ==> ActedOnce(r, action) == r
    ensures r.transfer.Some? ==>
      match action
      case Stores(i, c) =>
        if r.transfer.value.start <= i < r.transfer.value.start + r.transfer.value.len
        then R.Step(r, R.Store(i, c)) == Some(ActedOnce(r, action)) else ActedOnce(r, action) == r
      case Completes(k, ok) =>
        if k <= r.transfer.value.len
        then R.Step(r, R.Complete(k, ok)) == Some(ActedOnce(r, action)) else ActedOnce(r, action) == r
  {
    hide R.SignalReader, R.Received, R.DeviceStore, Ring.Content;
  }

  lemma ActedOneMore(r: R.Reader, actions: seq<DeviceAction>, i: nat)
    requires R.Inv(r) && i < |actions|
    ensures Acted(r, actions[..i + 1]) == ActedOnce(Acted(r, actions[..i]), actions[i])
  {
    assert actions[..i + 1][..i] == actions[..i];
  }

  lemma ReadRoundSteps(r: R.Reader, turn: ReadTurn)
    requires R.Inv(r)
    ensures r.ring.Valid() && R.Inv(R.SignalReader(r, turn.started)) && R.Inv(ReadRoundAfter(r, turn))
    ensures ReadRoundAfter(r, turn).ring.Valid()
    ensures R.Step(r, R.Signal(turn.started)) == Some(R.SignalReader(r, turn.started))
    ensures ReadRoundAfter(r, turn) == ReaderAfter(R.SignalReader(r, turn.started), turn)
  {
    R.SignalKeepsInv(r, turn.started);
    R.InvIsValid(ReadRoundAfter(r, turn));
    hide R.Inv, R.SignalReader, ReaderAfter;
  }

  /** Completions only make room. */
  lemma {:induction false} CompletionsMakeRoom(w: W.Writer, completions: seq<(nat, bool)>)
    requires W.Inv(w)
    ensures w.ring.Valid() && Completed(w, completions).ring.Valid()
    ensures Completed(w, completions).ring.Free() >= w.ring.Free()
    ensures w.transfer.Some? && |completions| > 0 && completions[0].0 <= |w.transfer.value.bytes| ==>
      Completed(w, completions).ring.Free() >= w.ring.Free() + completions[0].0
  {
    hide W.Inv, W.Step, Ring.Free;
    W.InvIsValid(w);
    W.InvIsValid(Completed(w, completions));
    if completions != [] {
      var n := |completions| - 1;
      var u := Completed(w, completions[..n]);
      var (k, ok) := completions[n];
      CompletionsMakeRoom(w, completions[..n]);
      CompletedOneMore(w, completions, n);
      assert completions[..n + 1] == completions;
      if u.transfer.Some? && k <= |u.transfer.value.bytes| { W.CompletionOutcome(u, k, ok); }
      assert n > 0 ==> completions[..n][0] == completions[0];
    }
  }

  // ----- a device that does its part

  /** The device accepts a transfer and sends a byte of it, and the stream stays open. */
  predicate Sends(turn: WriteTurn) {
    turn.started && |turn.completions| > 0 && turn.completions[0].0 == 1 && !turn.closed && !turn.timedOut
  }

  /** One round of the inner loop of write_data is enough. */
  lemma RoundMakesRoom(w: W.Writer, turn: WriteTurn)
    requires W.Inv(w) && w.active && w.ring.Free() == 0 && |w.ring.buffer| > 2 && Sends(turn)
    ensures var v := RoundAfter(w, turn); v.ring.Valid() && v.active && v.ring.Free() > 0
    ensures |RoundAfter(w, turn).ring.buffer| == |w.ring.buffer|
  {
    RoundSteps(w, turn);
    W.SignalOutcome(w, true);
    CompletionsMakeRoom(W.SignalWriter(w, true), turn.completions);
    CompletedAcceptsNothing(W.SignalWriter(w, true), turn.completions);
    hide W.SignalWriter, Ring.Content;
  }

  lemma RoomComes(w: W.Writer, timed: bool, turns: seq<WriteTurn>, at: nat)
    requires W.Inv(w) && w.active && |w.ring.buffer| > 2 && at < |turns| && Sends(turns[at])
    ensures var (next, wait, v) := RoomAwaited(w, timed, turns, at);
      wait == Ready && v.active && |v.ring.buffer| > 2 && next <= at + 1
  {
    hide W.Inv, Ring.Free, RoundAfter, RoomAwaited;
    RoomAwaitedIs(w, timed, turns, at);
    if w.ring.Free() == 0 {
      RoundMakesRoom(w, turns[at]);
      RoomAwaitedIs(RoundAfter(w, turns[at]), timed, turns, at + 1);
    }
  }

  /** With such a device write_data accepts everything in at most two turns a byte, unless put never ends. */
  lemma {:induction false} WriteCallEnds(
      w: W.Writer, data: seq<char>, count: nat, timed: bool, turns: seq<WriteTurn>, at: nat)
    requires W.Inv(w) && w.active && |w.ring.buffer| > 2 && count <= |data|
    requires at <= |turns| && |turns| - at >= 2 * (|data| - count)
    requires forall i :: at <= i < |turns| ==> Sends(turns[i])
    ensures var r := WriteCall(w, data, count, timed, turns, at); r.outcome == Returned(|data|) || r.outcome == Hung
    decreases |data| - count
  {
    hide W.Inv, RoomAwaited, PieceWritten, WriteCall;
    WriteCallIs(w, data, count, timed, turns, at);
    if count < |data| {
      RoomComes(w, timed, turns, at);
      var (next, wait, v) := RoomAwaited(w, timed, turns, at);
      var p := PieceWritten(v, data[count..], turns, next);
      if p.Some? {
        PieceGrows(v, data[count..], turns, next);
        WriteCallEnds(p.value, data, count + |p.value.accepted| - |v.accepted|, timed, turns, next + 1);
      }
    }
  }

  /** The device accepts a transfer and brings a byte, and the stream stays open. */
  predicate Brings(turn: ReadTurn) {
    && turn.started && |turn.actions| > 0 && turn.actions[0].Completes? && turn.actions[0].k == 1
    && !turn.closed && !turn.timedOut
  }

  /** One round of the inner loop of read_data is enough. */
  lemma RoundBringsBytes(r: R.Reader, turn: ReadTurn)
    requires R.Inv(r) && r.active && r.ring.Length() == 0 && |r.ring.buffer| > 2 && Brings(turn)
    ensures var s := ReadRoundAfter(r, turn); s.ring.Valid() && s.active && s.ring.Length() > 0
    ensures |ReadRoundAfter(r, turn).ring.buffer| == |r.ring.buffer|
  {
    ReadRoundSteps(r, turn);
    R.SignalOutcome(r, true);
    AllActedReturnNothing(R.SignalReader(r, true), turn.actions);
    hide R.SignalReader, Ring.Content;
  }

  lemma BytesCome(r: R.Reader, timed: bool, turns: seq<ReadTurn>, at: nat)
    requires R.Inv(r) && r.active && |r.ring.buffer| > 2 && at < |turns| && Brings(turns[at])
    ensures var (next, wait, s) := BytesAwaited(r, timed, turns, at);
      wait == Ready && s.active && |s.ring.buffer| > 2 && next <= at + 1 && s.ring.Valid() && s.ring.Length() > 0
  {
    hide R.Inv, Ring.Length, ReadRoundAfter, BytesAwaited;
    BytesAwaitedIs(r, timed, turns, at);
    if r.ring.Length() == 0 {
      RoundBringsBytes(r, turns[at]);
      BytesAwaitedIs(ReadRoundAfter(r, turns[at]), timed, turns, at + 1);
    }
  }

  /** With such a device read_data returns all that is asked for in at most two turns a byte. */
  lemma {:induction false} ReadCallEnds(
      r: R.Reader, len: nat, count: nat, timed: bool, turns: seq<ReadTurn>, at: nat)
    requires R.Inv(r) && r.active && |r.ring.buffer| > 2 && count <= len
    requires at <= |turns| && |turns| - at >= 2 * (len - count)
    requires forall i :: at <= i < |turns| ==> Brings(turns[i])
    ensures ReadCall(r, len, count, timed, turns, at).outcome == Returned(len)
    decreases len - count
  {
    hide R.Inv, Ring.Length, BytesAwaited, PieceRead, ReadCall;
    ReadCallIs(r, len, count, timed, turns, at);
    if count < len {
      BytesCome(r, timed, turns, at);
      var (next, wait, s) := BytesAwaited(r, timed, turns, at);
      PieceReadIsTaken(s, len - count, turns, next);
      var u := PieceRead(s, len - count, turns, next).value;
      PieceReadGrows(s, len - count, turns, next);
      ReadCallEnds(u, len, count + |u.returned| - |s.returned|, timed, turns, next + 1);
    }
  }

  lemma PieceReadIsTaken(r: R.Reader, len: nat, turns: seq<ReadTurn>, at: nat)
    requires R.Inv(r) && r.active && r.ring.Length() > 0 && len > 0
    ensures PieceRead(r, len, turns, at).Some?
  {
    R.ReadOutcome(r, len, at < |turns| && turns[at].started);
  }

  /** Cells overwritten by bytes from position at on */
  ghost function Overlay(cells: seq<char>, at: nat, bytes: seq<char>): (r: seq<char>)
    requires at + |bytes| <= |cells|
    ensures |r| == |cells|
  {
    cells[..at] + bytes + cells[at + |bytes|..]
  }

  lemma OverlayNothing(cells: seq<char>, bytes: seq<char>, at: nat)
    requires at <= |cells|
    ensures Overlay(cells, at, bytes[..0]) == cells
  {
  }

  lemma OverlayExtends(cells: seq<char>, at: nat, bytes: seq<char>, was: seq<char>)
    requires at + |bytes| <= |cells| == |was| && cells[at..] == was[at..]
    ensures Overlay(cells, at, bytes)[..at + |bytes|] == cells[..at] + bytes
    ensures Overlay(cells, at, bytes)[at + |bytes|..] == was[at + |bytes|..]
  {
    assert cells[at + |bytes|..] == cells[at..][|bytes|..];
    assert was[at + |bytes|..] == was[at..][|bytes|..];
  }

  lemma OverlayStep(cells: seq<char>, bytes: seq<char>, at: nat, n: nat, c: nat)
    requires n + c <= |bytes| && at + n + c <= |cells|
    ensures Overlay(Overlay(cells, at, bytes[..n]), at + n, bytes[n..n + c]) == Overlay(cells, at, bytes[..n + c])
  {
  }

  /** The branches of signal_writer */
  lemma SignalWriterCases(w: W.Writer, ok: bool)
    requires W.Inv(w)
    ensures w.permits <= 1 && (w.ring.Length() > 0 && w.permits == 0 ==> w.transfer.Some?)
    ensures w.ring.Length() == 0 || w.permits == 0 || !w.active || !ok ==> W.SignalWriter(w, ok) == w
    ensures w.ring.Length() > 0 && w.permits > 0 && w.active ==>
      var io, blen := w.ring.head - w.ring.tail, |w.ring.buffer| - w.ring.tail;
      var len := Min(Min(if io > 0 then io else io + |w.ring.buffer|, blen), (|w.ring.buffer| - 1) / 2);
      && io + |w.ring.buffer| > 0 && len >= 0 && len <= blen && (len == 0 ==> W.SignalWriter(w, ok) == w)
      && (len > 0 && ok ==>
        W.SignalWriter(w, ok) == w.(permits := w.permits - 1,
          transfer := Some(W.Transfer(w.ring.tail, w.ring.buffer[w.ring.tail..w.ring.tail + len]))))
  {
  }

  /** The branches of signal_reader */
  lemma SignalReaderCases(r: R.Reader, ok: bool)
    requires R.Inv(r)
    ensures r.permits <= 1 && (r.permits == 0 ==> r.transfer.Some?)
    ensures r.ring.Free() == 0 || r.permits == 0 ==> R.SignalReader(r, ok) == r
    ensures r.ring.Free() > 0 && r.permits > 0 ==>
      var ring := if r.ring.Length() == 0 then r.ring.(head := 0, tail := 0) else r.ring;
      var io, blen := ring.tail - ring.head - 1, |ring.buffer| - ring.head;
      var len := Min(Min(if io > 0 then io else io + |ring.buffer|, blen), (|ring.buffer| - 1) / 2);
      && io + |ring.buffer| > 0 && 0 <= len <= blen
      && (!r.active || !ok || len == 0 ==> R.SignalReader(r, ok) == r.(ring := ring))
      && (r.active && ok && len > 0 ==>
        R.SignalReader(r, ok) ==
        r.(ring := ring, permits := r.permits - 1, transfer := Some(R.Region(ring.head, len))))
  {
  }

  lemma FullModulo(head: nat, size: nat)
    requires head < size
    ensures (head + size + 1) % size == Ahead(head, 1, size)
  {
    if head + 1 < size {
      ModuloAfterOneTurn(head + size + 1, size);
    } else {
      assert head + size + 1 == 2 * size;
    }
  }

  lemma LengthModulo(head: nat, tail: nat, size: nat)
    requires head < size && tail < size && head != tail
    ensures (size + head - tail) % size == if tail < head then head - tail else size + head - tail
  {
    if tail < head { ModuloAfterOneTurn(size + head - tail, size); }
  }

  lemma ContentAt(r: Ring, i: nat)
    requires r.Valid() && i <= r.Length()
    ensures i < r.Length() ==> r.Content()[i] == r.buffer[Ahead(r.tail, i, |r.buffer|)]
  {
    if i < r.Length() { CellAt(r, i); }
  }

  /** Going on from tail, head is met after as many cells as there are bytes. */
  lemma AheadOnce(r: Ring, i: nat)
    requires r.Valid() && i <= r.Length()
    ensures Ahead(r.tail, i, |r.buffer|) == r.head <==> i == r.Length()
  {
  }

  lemma StoredNothing(r: Ring)
    requires r.Valid()
    ensures Stored(r, []) == r
  {
  }

  /** How far put of len bytes has come with n of them copied */
  predicate PutPhase(r: Ring, len: nat, n: nat, left: int)
    requires r.Valid()
  {
    n <= r.Free() && Phase(len, r.Free(), |r.buffer| - r.head, n, left)
  }

  lemma PutStart(r: Ring, len: nat)
    requires r.Valid()
    ensures PutPhase(r, len, 0, len) && W.PutCount(r, 0) == 0 && Ahead(r.head, 0, |r.buffer|) == r.head
    ensures PutEnds(r, 0)
  {
    PutEndsIff(r, 0);
  }

  lemma PutPassIs(size: nat, tail: nat, p: nat, left: int)
    requires tail < size && p < size && left > 0
    ensures var pass, io := PutPass(size, tail, p, left), tail - p - 1;
      && (pass.Exit? <==> io == 0)
      && (io > 0 || (io < 0 && io + size > 0) ==>
        pass.copied == Min(Min(left, if io > 0 then io else io + size), size - p))
      && (io + size <= 0 ==> pass.copied == 0)
  {
  }

  /** A pass of put: it exits, copies and goes on, or spins */
  lemma PutPassPhase(r: Ring, len: nat, n: nat, left: int)
    requires r.Valid() && n <= len && left > 0 && n < |r.buffer| && PutPhase(r, len, n, left)
    ensures var p := Ahead(r.head, n, |r.buffer|);
      var pass := PutPass(|r.buffer|, r.tail, p, left);
      if pass.Exit? then n == W.PutCount(r, len) && PutEnds(r, len)
      else if pass.copied == 0 then n == W.PutCount(r, len) && !PutEnds(r, len)
      else
        var c := pass.copied;
        && n + c <= len && n + c <= r.Free() < |r.buffer| && p + c <= |r.buffer|
        && Ahead(p, c, |r.buffer|) == Ahead(r.head, n + c, |r.buffer|)
        && PutPhase(r, len, n + c, left - c - c)
        && (left - c - c <= 0 ==> n + c == W.PutCount(r, len) && PutEnds(r, len))
  {
    hide Copied, Phase, PutEnds;
    PutEndsIff(r, len);
    FreeAhead(r, n);
    PhaseRoom(len, r.Free(), |r.buffer| - r.head, n, left);
    var p := Ahead(r.head, n, |r.buffer|);
    var pass := PutPass(|r.buffer|, r.tail, p, left);
    if pass.Again? && pass.copied > 0 {
      PhaseStep(len, r.Free(), |r.buffer| - r.head, n, left, pass.copied);
      PhaseDone(len, r.Free(), |r.buffer| - r.head, n + pass.copied, pass.left);
      AheadTwice(r.head, n, pass.copied, |r.buffer|);
    }
  }

  /** How far get of len bytes has come with n of them copied */
  predicate GetPhase(r: Ring, len: nat, n: nat, left: int)
    requires r.Valid()
  {
    n <= r.Length() && Phase(len, r.Length(), |r.buffer| - r.tail, n, left)
  }

  lemma GetStart(r: Ring, len: nat)
    requires r.Valid()
    ensures GetPhase(r, len, 0, len) && Ahead(r.tail, 0, |r.buffer|) == r.tail
  {
  }

  /** A pass of get, which never spins */
  lemma GetPassPhase(r: Ring, len: nat, n: nat, left: int)
    requires r.Valid() && n <= len && left > 0 && n < |r.buffer| && GetPhase(r, len, n, left)
    ensures var p := Ahead(r.tail, n, |r.buffer|); var io := r.head - p;
      if io == 0 then n == R.GetCount(r, len)
      else
        var c := Min(Min(left, if io > 0 then io else io + |r.buffer|), |r.buffer| - p);
        && c > 0 && n + c <= len && n + c <= r.Length() < |r.buffer| && p + c <= |r.buffer|
        && Ahead(p, c, |r.buffer|) == Ahead(r.tail, n + c, |r.buffer|)
        && GetPhase(r, len, n + c, left - c - c)
        && (left - c - c <= 0 ==> n + c == R.GetCount(r, len))
  {
    hide Copied, Phase;
    PhaseRoom(len, r.Length(), |r.buffer| - r.tail, n, left);
    var p := Ahead(r.tail, n, |r.buffer|);
    var io := r.head - p;
    assert r.Length() - n == if io >= 0 then io else io + |r.buffer|;
    if io != 0 {
      var c := Min(Min(left, if io > 0 then io else io + |r.buffer|), |r.buffer| - p);
      PhaseStep(len, r.Length(), |r.buffer| - r.tail, n, left, c);
      PhaseDone(len, r.Length(), |r.buffer| - r.tail, n + c, left - 2 * c);
      AheadTwice(r.tail, n, c, |r.buffer|);
    }
  }

  lemma PhaseDone(len: nat, avail: nat, run: nat, n: nat, left: int)
    requires Phase(len, avail, run, n, left)
    ensures left <= 0 ==> n == Copied(len, avail, run)
  {
  }

  lemma PhaseRoom(len: nat, avail: nat, run: nat, n: nat, left: int)
    requires Phase(len, avail, run, n, left) && left > 0
    ensures left == len - 2 * n && n <= avail && (n == 0 || n == avail || n == run)
    ensures n == avail ==> n == Copied(len, avail, run)
  {
  }

  /** n cells after head, as many cells are free as remain of the free ones. */
  lemma FreeAhead(r: Ring, n: nat)
    requires r.Valid() && n <= r.Free()
    ensures var io := r.tail - Ahead(r.head, n, |r.buffer|) - 1;
      r.Free() - n == if io > 0 || (io == 0 && r.tail > 0) then io else io + |r.buffer|
  {
  }

  lemma AheadTwice(p: nat, n: nat, c: nat, size: nat)
    requires p < size && n + c < size
    ensures Ahead(Ahead(p, n, size), c, size) == Ahead(p, n + c, size)
  {
  }
}
