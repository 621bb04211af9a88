/**
 * The receiving side of DEV::TTY_Stream (TTY_Asynch/TTY_Stream.cpp, TTY_ReadStream.cpp, TTY_Handler.cpp): the device
 * writes into free cells of the ring, one transfer at a time, while read_data takes bytes out of the same buffer.
 */
module ReadStream {
  import opened Options
  import opened Rings

  /** A transfer in flight: the cells the device may write */
  datatype Region = Region(start: nat, len: nat)

  datatype Reader = Reader(
    ring: Ring,
    permits: nat,
    active: bool,
    transfer: Option<Region>,
    received: seq<char>,
    returned: seq<char>)

  /** The length of the next transfer: contiguous, and at most half the buffer */
  function ReceiveLength(r: Ring): nat
    requires r.Valid()
  {
    Min(Min(r.Free(), |r.buffer| - r.head), (|r.buffer| - 1) / 2)
  }

  /** signal_reader, where the device accepts the transfer or not; an empty ring starts over at the front */
  function SignalReader(r: Reader, ok: bool): (s: Reader)
    requires r.ring.Valid()
    ensures s.ring.Valid()
  {
    if r.ring.Free() == 0 || r.permits == 0 then r
    else
      var ring := if r.ring.Length() == 0 then r.ring.(head := 0, tail := 0) else r.ring;
      if r.active && ReceiveLength(ring) > 0 && ok then
        r.(ring := ring, permits := r.permits - 1, transfer := Some(Region(ring.head, ReceiveLength(ring))))
      else
        r.(ring := ring)
  }

  function GetCount(r: Ring, len: nat): nat
    requires r.Valid()
  {
    Copied(len, r.Length(), |r.buffer| - r.tail)
  }

  lemma GetCountFits(r: Ring, len: nat)
    requires r.Valid()
    ensures GetCount(r, len) <= len && GetCount(r, len) <= r.Length()
    ensures len > 0 && r.Length() > 0 ==> GetCount(r, len) > 0
  {
    CopiedIsPrefix(len, r.Length(), |r.buffer| - r.tail);
  }

  /** get, get_bump */
  function Take(r: Reader, len: nat): (s: Reader)
    requires r.ring.Valid()
    ensures s.ring.Valid()
  {
    GetCountFits(r.ring, len);
    var n := GetCount(r.ring, len);
    r.(ring := GetBump(r.ring, n), returned := r.returned + r.ring.Content()[..n])
  }

  /** The device puts a byte into its region. */
  function DeviceStore(r: Reader, i: nat, c: char): Reader
    requires i < |r.ring.buffer|
  {
    r.(ring := r.ring.(buffer := r.ring.buffer[i := c]))
  }

  /** handle_read_stream up to signal_reader: the device has received k bytes */
  function Received(r: Reader, k: nat): (s: Reader)
    requires r.ring.Valid() && r.transfer.Some? && k <= r.transfer.value.len
    requires r.transfer.value.start + r.transfer.value.len <= |r.ring.buffer|
    ensures s.ring.Valid()
  {
    r.(ring := PutBump(r.ring, Min(k, r.ring.Free())),
       permits := r.permits + 1,
       transfer := None,
       received := r.received + r.ring.buffer[r.transfer.value.start..r.transfer.value.start + k])
  }

  datatype Event =
    | Read(len: nat, ok: bool)
    | Signal(ok: bool)
    | Store(i: nat, c: char)
    | Complete(k: nat, ok: bool)
    | Close

  /** A step, or None where it is not enabled */
  function Step(r: Reader, e: Event): (s: Option<Reader>)
    requires r.ring.Valid()
    ensures s.Some? ==> s.value.ring.Valid()
  {
    match e
    case Read(len, ok) =>
      if r.active && r.ring.Length() > 0 && len > 0 then
        Some(SignalReader(Take(r, len), ok))
      else None
    case Signal(ok) => Some(SignalReader(r, ok))
    case Store(i, c) =>
      if r.transfer.Some? && r.transfer.value.start <= i < r.transfer.value.start + r.transfer.value.len
         && i < |r.ring.buffer|
      then
        Some(DeviceStore(r, i, c))
      else None
    case Complete(k, ok) =>
      if r.transfer.Some? && k <= r.transfer.value.len
         && r.transfer.value.start + r.transfer.value.len <= |r.ring.buffer|
      then
        Some(SignalReader(Received(r, k), ok))
      else None
    case Close => Some(r.(active := false))
  }

  // ----- what every step keeps

  predicate Inv(r: Reader) {
    && r.ring.Valid()
    && r.permits + (if r.transfer.Some? then 1 else 0) == 1
    && r.received == r.returned + r.ring.Content()
    && (r.transfer.Some? ==> RegionOk(r.ring, r.transfer.value))
  }

  /** The region is free space right behind the content. */
  predicate RegionOk(r: Ring, t: Region)
    requires r.Valid()
  {
    t.start == r.head && 0 < t.len <= r.Free() && t.start + t.len <= |r.buffer|
  }

  lemma SignalKeepsInv(r: Reader, ok: bool)
    requires Inv(r)
    ensures Inv(SignalReader(r, ok))
  {
    if r.ring.Length() == 0 { assert r.ring.Content() == r.ring.(head := 0, tail := 0).Content(); }
  }

  lemma TakeKeepsInv(r: Reader, len: nat)
    requires Inv(r)
    ensures Inv(Take(r, len))
  {
    hide Ring.Content, GetCount;
    GetCountFits(r.ring, len);
    var n := GetCount(r.ring, len);
    GetBumpDrops(r.ring, n);
    assert r.ring.Content() == r.ring.Content()[..n] + r.ring.Content()[n..];
  }

  lemma StoreKeepsInv(r: Reader, i: nat, c: char)
    requires Inv(r) && r.transfer.Some?
    requires r.transfer.value.start <= i < r.transfer.value.start + r.transfer.value.len
    ensures Inv(DeviceStore(r, i, c))
  {
    var s := DeviceStore(r, i, c).ring;
    assert s.Content() == r.ring.Content();
  }

  lemma ReceivedKeepsInv(r: Reader, k: nat)
    requires Inv(r) && r.transfer.Some? && k <= r.transfer.value.len
    ensures Inv(Received(r, k))
  {
    hide Ring.Content, Ring.Cells;
    var n, t := r.ring.Length(), r.transfer.value;
    PutBumpAppends(r.ring, k);
    CellRun(r.ring, n, k);
    HeadIsAhead(r.ring);
  }

  lemma StepKeepsInv(r: Reader, e: Event)
    requires Inv(r)
    ensures Step(r, e).Some? ==> Inv(Step(r, e).value)
  {
    hide SignalReader, Take, Received, DeviceStore, Ring.Content;
    match e
    case Read(len, ok) => TakeKeepsInv(r, len); SignalKeepsInv(Take(r, len), ok);
    case Signal(ok) => SignalKeepsInv(r, ok);
    case Store(i, c) => if Step(r, e).Some? { StoreKeepsInv(r, i, c); }
    case Complete(k, ok) =>
      if r.transfer.Some? && k <= r.transfer.value.len {
        ReceivedKeepsInv(r, k);
        SignalKeepsInv(Received(r, k), ok);
      }
    case Close =>
  }

  // ----- what a step does

  /** signal_reader resets an empty ring without a transfer, and starts a transfer exactly when the device accepts one,
      none is in flight, and there are free cells and room for two bytes in the buffer; into the first free cells, as
      many as lie before the end of the buffer, up to half its size. */
  lemma SignalOutcome(r: Reader, ok: bool)
    requires Inv(r)
    ensures var s := SignalReader(r, ok);
      && s == r.(ring := s.ring, permits := s.permits, transfer := s.transfer)
      && s.ring == (if r.ring.Length() == 0 && r.ring.Free() > 0 && r.transfer == None
                    then r.ring.(head := 0, tail := 0) else r.ring)
      && (s.transfer != r.transfer <==>
            ok && r.active && r.transfer == None && r.ring.Free() > 0 && |r.ring.buffer| > 2)
      && (s.transfer == r.transfer ==> s.permits == r.permits)
      && (s.transfer != r.transfer ==>
            && s.transfer.Some? && s.permits == 0
            && var n, half := s.transfer.value.len, (|r.ring.buffer| - 1) / 2;
            && s.transfer.value.start == s.ring.head && n <= s.ring.Free()
            && n <= half && s.ring.head + n <= |r.ring.buffer|
            && (n == half || n == s.ring.Free() || s.ring.head + n == |r.ring.buffer|))
  {
    hide Ring.Content;
  }

  lemma SignalKeepsContent(r: Reader, ok: bool)
    requires Inv(r)
    ensures SignalReader(r, ok).ring.Content() == r.ring.Content()
  {
    SignalKeepsInv(r, ok);
    hide Ring.Content, SignalReader;
    SignalOutcome(r, ok);
    assert r.returned + r.ring.Content() == r.returned + SignalReader(r, ok).ring.Content();
    assert r.ring.Content() == (r.returned + r.ring.Content())[|r.returned|..];
    assert SignalReader(r, ok).ring.Content() == (r.returned + SignalReader(r, ok).ring.Content())[|r.returned|..];
  }

  /** A completion brings the bytes that the device has put into its region. */
  lemma CompletionOutcome(r: Reader, k: nat, ok: bool)
    requires Inv(r) && r.transfer.Some? && k <= r.transfer.value.len
    ensures Step(r, Complete(k, ok)).Some?
    ensures var s, start := Step(r, Complete(k, ok)).value, r.transfer.value.start;
      && start + k <= |r.ring.buffer| && s.received == r.received + r.ring.buffer[start..start + k]
      && s.ring.Content() == r.ring.Content() + r.ring.buffer[start..start + k] && s.ring.buffer == r.ring.buffer
      && s.returned == r.returned && s.active == r.active
  {
    hide Ring.Content;
    ReceivedKeepsInv(r, k);
    SignalKeepsContent(Received(r, k), ok);
    SignalOutcome(Received(r, k), ok);
    var bytes := r.ring.buffer[r.transfer.value.start..r.transfer.value.start + k];
    assert r.returned + r.ring.Content() + bytes == r.returned + Received(r, k).ring.Content();
    assert r.ring.Content() + bytes == (r.returned + (r.ring.Content() + bytes))[|r.returned|..];
    assert Received(r, k).ring.Content() == (r.returned + Received(r, k).ring.Content())[|r.returned|..];
    hide Inv, SignalReader;
  }

  /** A read is taken wherever there are bytes, and takes them off the front. */
  lemma ReadOutcome(r: Reader, len: nat, ok: bool)
    requires Inv(r)
    ensures Step(r, Read(len, ok)).Some? <==> r.active && r.ring.Length() > 0 && len > 0
    ensures Step(r, Read(len, ok)).Some? ==>
      var s := Step(r, Read(len, ok)).value;
      var n := |s.returned| - |r.returned|;
      && 0 < n <= len && n <= r.ring.Length() && s.returned == r.returned + r.ring.Content()[..n]
      && s.ring.Content() == r.ring.Content()[n..] && s.received == r.received && s.active
      && (n == len || n == r.ring.Length() || |r.ring.buffer| - r.ring.tail < len)
  {
    hide Ring.Content;
    if r.active && r.ring.Length() > 0 && len > 0 {
      GetCountFits(r.ring, len);
      CopiedIsPrefix(len, r.ring.Length(), |r.ring.buffer| - r.ring.tail);
      TakeKeepsInv(r, len);
      GetBumpDrops(r.ring, GetCount(r.ring, len));
      SignalKeepsContent(Take(r, len), ok);
      SignalOutcome(Take(r, len), ok);
    }
    hide Inv, SignalReader, GetCount;
  }

  // ----- runs

  predicate Initial(r: Reader) {
    && |r.ring.buffer| > 0 && r.ring.head == 0 && r.ring.tail == 0
    && r.permits == 1 && r.active && r.transfer == None && r.received == [] && r.returned == []
  }

  /** The state after a run, None if one of its steps is not enabled */
  function Run(r: Reader, events: seq<Event>): (s: Option<Reader>)
    requires r.ring.Valid()
    ensures s.Some? ==> s.value.ring.Valid()
    decreases |events|
  {
    if events == [] then Some(r)
    else
      match Step(r, events[0])
      case None => None
      case Some(s) => Run(s, events[1..])
  }

  lemma {:induction false} RunKeepsInv(r: Reader, events: seq<Event>)
    requires Inv(r) && Run(r, events).Some?
    ensures Inv(Run(r, events).value)
    decreases |events|
  {
    hide Step, Inv, Ring.Content;
    if events != [] {
      InvIsValid(r);
      StepKeepsInv(r, events[0]);
      RunKeepsInv(Step(r, events[0]).value, events[1..]);
    }
  }

  lemma InvIsValid(r: Reader)
    requires Inv(r)
    ensures r.ring.Valid()
  {
  }

  /**
   * In every run: the bytes returned by read_data and then those in the ring are the bytes received, in order; at most
   * one transfer is in flight, and it may write only free cells.
   */
  lemma BytesAreConserved(r: Reader, events: seq<Event>)
    requires Initial(r) && Run(r, events).Some?
    ensures var s := Run(r, events).value;
      && s.received == s.returned + s.ring.Content()
      && (s.permits == 0 <==> s.transfer.Some?)
      && (s.transfer.Some? ==> s.transfer.value.len <= s.ring.Free())
  {
    RunKeepsInv(r, events);
    hide Step, Ring.Content, Run;
  }

  /**
   * While a transfer is in flight its region stays where it is, whatever read_data takes, and the bytes in the ring
   * change only at their front: neither a write of the device nor the reset of head and tail reaches them.
   */
  lemma TransferIsApart(r: Reader, e: Event)
    requires Inv(r) && r.transfer.Some? && !e.Complete? && Step(r, e).Some?
    ensures var s := Step(r, e).value;
      Inv(s) && s.transfer == r.transfer && s.ring.head == r.ring.head &&
      s.ring.Content() == if e.Read? then r.ring.Content()[GetCount(r.ring, e.len)..] else r.ring.Content()
  {
    hide Ring.Content, Ring.Cells;
    StepKeepsInv(r, e);
    if e.Store? { StoreKeepsContent(r, e.i, e.c); }
    if e.Read? {
      GetCountFits(r.ring, e.len);
      GetBumpDrops(r.ring, GetCount(r.ring, e.len));
    }
  }

  lemma StoreKeepsContent(r: Reader, i: nat, c: char)
    requires Inv(r) && r.transfer.Some?
    requires r.transfer.value.start <= i < r.transfer.value.start + r.transfer.value.len
    ensures DeviceStore(r, i, c).ring.Valid() && DeviceStore(r, i, c).ring.Content() == r.ring.Content()
  {
  }

  /** What was received and what was returned only ever grow at the end. */
  lemma HistoriesGrow(r: Reader, e: Event)
    requires Inv(r) && Step(r, e).Some?
    ensures r.returned <= Step(r, e).value.returned && r.received <= Step(r, e).value.received
  {
    hide Ring.Content, Inv;
  }

  lemma {:induction false} ReturnedOnceAndForAll(r: Reader, events: seq<Event>)
    requires Inv(r) && Run(r, events).Some?
    ensures r.returned <= Run(r, events).value.returned && r.received <= Run(r, events).value.received
    decreases |events|
  {
    hide Step, Inv;
    InvIsValid(r);
    if events != [] {
      StepKeepsInv(r, events[0]);
      HistoriesGrow(r, events[0]);
      ReturnedOnceAndForAll(Step(r, events[0]).value, events[1..]);
    }
  }

  lemma RunNothing(r: Reader)
    requires Inv(r)
    ensures Run(r, []) == Some(r)
  {
  }

  lemma ReturnedOnlyByRead(r: Reader, e: Event)
    requires Inv(r) && !e.Read?
    ensures Step(r, e).Some? ==> Step(r, e).value.returned == r.returned
  {
    hide Ring.Content, Inv;
  }

  lemma CloseStep(r: Reader)
    requires Inv(r)
    ensures Step(r, Close) == Some(r.(active := false)) && Inv(r.(active := false))
  {
  }

  lemma {:induction false} RunOneMore(r: Reader, events: seq<Event>, e: Event)
    requires Inv(r) && Run(r, events).Some?
    ensures Run(r, events + [e]) == Step(Run(r, events).value, e)
    decreases |events|
  {
    hide Step, Inv;
    InvIsValid(r);
    if events == [] {
      assert [e][1..] == [];
      StepKeepsInv(r, e);
    } else {
      StepKeepsInv(r, events[0]);
      RunOneMore(Step(r, events[0]).value, events[1..], e);
      assert (events + [e])[1..] == events[1..] + [e];
    }
  }

  // ----- the device is kept busy

  predicate Busy(r: Reader)
    requires r.ring.Valid()
  {
    r.active && r.ring.Free() > 0 ==> r.transfer.Some?
  }

  /**
   * A signal, a read or a completion whose transfer the device accepts leaves no free cell without one, if the buffer
   * holds at least two bytes.
   */
  lemma DeviceIsKeptBusy(r: Reader, e: Event)
    requires Inv(r) && Step(r, e).Some? && |r.ring.buffer| > 2
    requires (e.Read? || e.Complete? || e.Signal?) && e.ok
    ensures Inv(Step(r, e).value) && Busy(Step(r, e).value)
  {
    hide Ring.Content;
    StepKeepsInv(r, e);
  }

  /** In a smaller one half the size is zero, and no transfer is ever started. */
  lemma TinyBufferNeverReceives(r: Reader, ok: bool)
    requires Inv(r) && r.transfer == None && r.active && r.ring.Free() > 0
    ensures SignalReader(r, ok).transfer == None <==> !ok || |r.ring.buffer| <= 2
  {
  }
}
