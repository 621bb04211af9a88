/**
 * The sending side of DEV::TTY_Stream (TTY_Asynch/TTY_Stream.cpp, TTY_WriteStream.cpp, TTY_Handler.cpp): write_data
 * puts bytes into the ring while the device takes them out of the same buffer, one transfer at a time. Every step is
 * one stretch under the stream's lock.
 */
module WriteStream {
  import opened Options
  import opened Rings

  /** A transfer in flight: where the device reads, and the bytes that were there when the transfer was started */
  datatype Transfer = Transfer(start: nat, bytes: seq<char>)

  datatype Writer = Writer(
    ring: Ring,
    permits: nat,
    active: bool,
    transfer: Option<Transfer>,
    accepted: seq<char>,
    sent: seq<char>)

  /** What the device holds in the region of a transfer now */
  function Region(r: Ring, t: Transfer): (bytes: seq<char>)
    requires t.start + |t.bytes| <= |r.buffer|
    ensures |bytes| == |t.bytes|
  {
    r.buffer[t.start..t.start + |t.bytes|]
  }

  /** The length of the next transfer: contiguous, and at most half the buffer */
  function SendLength(r: Ring): nat
    requires r.Valid()
  {
    Min(Min(r.Length(), |r.buffer| - r.tail), (|r.buffer| - 1) / 2)
  }

  /** signal_writer, where the device accepts the transfer or not */
  function SignalWriter(w: Writer, ok: bool): (v: Writer)
    requires w.ring.Valid()
    ensures v.ring.Valid()
  {
    if w.ring.Length() == 0 || w.permits == 0 || !w.active || SendLength(w.ring) == 0 || !ok then w
    else
      var tail := w.ring.tail;
      w.(permits := w.permits - 1,
         transfer := Some(Transfer(tail, w.ring.buffer[tail..tail + SendLength(w.ring)])))
  }

  function PutCount(r: Ring, len: nat): nat
    requires r.Valid()
  {
    Copied(len, r.Free(), |r.buffer| - r.head)
  }

  lemma PutCountFits(r: Ring, len: nat)
    requires r.Valid()
    ensures PutCount(r, len) <= len && PutCount(r, len) <= r.Free()
    ensures len > 0 && r.Free() > 0 ==> PutCount(r, len) > 0
  {
    CopiedIsPrefix(len, r.Free(), |r.buffer| - r.head);
  }

  /** put, put_bump */
  function Accept(w: Writer, data: seq<char>): (v: Writer)
    requires w.ring.Valid()
    ensures v.ring.Valid()
  {
    PutCountFits(w.ring, |data|);
    var bytes := data[..PutCount(w.ring, |data|)];
    w.(ring := PutBump(Stored(w.ring, bytes), |bytes|), accepted := w.accepted + bytes)
  }

  /** handle_write_stream up to signal_writer: the device has sent k bytes */
  function Sent(w: Writer, k: nat): (v: Writer)
    requires w.ring.Valid() && w.transfer.Some? && k <= |w.transfer.value.bytes|
    requires w.transfer.value.start + |w.transfer.value.bytes| <= |w.ring.buffer|
    ensures v.ring.Valid()
  {
    w.(ring := GetBump(w.ring, Min(k, w.ring.Length())),
       permits := w.permits + 1,
       transfer := None,
       sent := w.sent + Region(w.ring, w.transfer.value)[..k])
  }

  datatype Event =
    | Write(data: seq<char>, ok: bool)
    | Signal(ok: bool)
    | Complete(k: nat, ok: bool)
    | Close

  /** A step, or None where it is not enabled: put without room is not reached, and a put that spins takes no step. */
  function Step(w: Writer, e: Event): (r: Option<Writer>)
    requires w.ring.Valid()
    ensures r.Some? ==> r.value.ring.Valid()
  {
    match e
    case Write(data, ok) =>
      if w.active && w.ring.Free() > 0 && |data| > 0 && (w.ring.tail != 0 || |data| <= 2 * w.ring.Free()) then
        Some(SignalWriter(Accept(w, data), ok))
      else None
    case Signal(ok) => Some(SignalWriter(w, ok))
    case Complete(k, ok) =>
      if w.transfer.Some? && k <= |w.transfer.value.bytes|
         && w.transfer.value.start + |w.transfer.value.bytes| <= |w.ring.buffer|
      then
        Some(SignalWriter(Sent(w, k), ok))
      else None
    case Close => Some(w.(active := false))
  }

  // ----- what every step keeps

  predicate Inv(w: Writer) {
    && w.ring.Valid()
    && w.permits + (if w.transfer.Some? then 1 else 0) == 1
    && w.accepted == w.sent + w.ring.Content()
    && (w.transfer.Some? ==> TransferOk(w.ring, w.transfer.value))
  }

  predicate TransferOk(r: Ring, t: Transfer)
    requires r.Valid()
  {
    && t.start == r.tail && 0 < |t.bytes| <= r.Length()
    && t.start + |t.bytes| <= |r.buffer| && Region(r, t) == t.bytes
  }

  lemma SignalKeepsInv(w: Writer, ok: bool)
    requires Inv(w)
    ensures Inv(SignalWriter(w, ok))
  {
  }

  lemma StoredSparesTransfer(r: Ring, bytes: seq<char>, t: Transfer)
    requires r.Valid() && |bytes| <= r.Free() && TransferOk(r, t)
    ensures TransferOk(PutBump(Stored(r, bytes), |bytes|), t)
  {
    hide Stored, Ring.Content, Ring.Cells;
    StoredAppends(r, bytes);
    var s := PutBump(Stored(r, bytes), |bytes|);
    PutBumpAppends(Stored(r, bytes), |bytes|);
    forall i | 0 <= i < |t.bytes| ensures Region(s, t)[i] == Region(r, t)[i] { StoredAt(r, bytes, t.start + i); }
  }

  lemma AcceptKeepsInv(w: Writer, data: seq<char>)
    requires Inv(w)
    ensures Inv(Accept(w, data))
  {
    hide Stored, Ring.Content, TransferOk, PutBump, PutCount;
    PutCountFits(w.ring, |data|);
    var bytes := data[..PutCount(w.ring, |data|)];
    StoredAppends(w.ring, bytes);
    if w.transfer.Some? { StoredSparesTransfer(w.ring, bytes, w.transfer.value); }
  }

  lemma SentKeepsInv(w: Writer, k: nat)
    requires Inv(w) && w.transfer.Some? && k <= |w.transfer.value.bytes|
    ensures Inv(Sent(w, k))
    ensures Sent(w, k).sent == w.sent + w.transfer.value.bytes[..k]
  {
    hide Ring.Content, Ring.Cells;
    GetBumpDrops(w.ring, k);
    ContentRun(w.ring, 0, k);
    hide GetBump;
    assert w.ring.Content() == w.ring.Content()[..k] + w.ring.Content()[k..];
  }

  lemma StepKeepsInv(w: Writer, e: Event)
    requires Inv(w)
    ensures Step(w, e).Some? ==> Inv(Step(w, e).value)
  {
    hide SignalWriter, Accept, Sent;
    match e
    case Write(data, ok) => AcceptKeepsInv(w, data); SignalKeepsInv(Accept(w, data), ok);
    case Signal(ok) => SignalKeepsInv(w, ok);
    case Complete(k, ok) =>
      if w.transfer.Some? && k <= |w.transfer.value.bytes| {
        SentKeepsInv(w, k);
        SignalKeepsInv(Sent(w, k), ok);
      }
    case Close =>
  }

  // ----- what a step does

  /** signal_writer starts a transfer exactly when the device accepts one, none is in flight, and there are bytes and
      room for two in the buffer; of the first bytes, as many as lie before the end of the buffer, up to half its
      size. */
  lemma SignalOutcome(w: Writer, ok: bool)
    requires Inv(w)
    ensures var v := SignalWriter(w, ok);
      && v == w.(permits := v.permits, transfer := v.transfer)
      && (v == w || w.transfer == None)
      && (v != w <==> ok && w.active && w.transfer == None && w.ring.Length() > 0 && |w.ring.buffer| > 2)
      && (v != w ==>
            && v.transfer.Some? && v.permits == 0
            && var n, half := |v.transfer.value.bytes|, (|w.ring.buffer| - 1) / 2;
            && v.transfer.value.start == w.ring.tail && v.transfer.value.bytes <= w.ring.Content()
            && n <= half && w.ring.tail + n <= |w.ring.buffer|
            && (n == half || n == w.ring.Length() || w.ring.tail + n == |w.ring.buffer|))
  {
    hide Ring.Content;
    var v := SignalWriter(w, ok);
    if v != w { ContentRun(w.ring, 0, |v.transfer.value.bytes|); }
  }

  /** A completion makes as much room as bytes were sent. */
  lemma CompletionOutcome(w: Writer, k: nat, ok: bool)
    requires Inv(w) && w.transfer.Some? && k <= |w.transfer.value.bytes|
    ensures Step(w, Complete(k, ok)).Some?
    ensures var v := Step(w, Complete(k, ok)).value;
      && v.sent == w.sent + w.transfer.value.bytes[..k] && v.ring.Free() == w.ring.Free() + k
      && v.ring.Content() == w.ring.Content()[k..] && v.ring.buffer == w.ring.buffer
      && v.accepted == w.accepted && v.active == w.active
  {
    hide Ring.Content;
    SentKeepsInv(w, k);
    GetBumpDrops(w.ring, k);
    SignalOutcome(Sent(w, k), ok);
    hide Inv, SignalWriter;
  }

  /** A write is taken wherever put comes to an end, and takes bytes off the front of the request. */
  lemma WriteOutcome(w: Writer, data: seq<char>, ok: bool)
    requires Inv(w)
    ensures Step(w, Write(data, ok)).Some? <==>
              w.active && w.ring.Free() > 0 && |data| > 0 && PutEnds(w.ring, |data|)
    ensures Step(w, Write(data, ok)).Some? ==>
      var v := Step(w, Write(data, ok)).value;
      var n := |v.accepted| - |w.accepted|;
      && 0 < n <= |data| && v.accepted == w.accepted + data[..n] && v.ring.Content() == w.ring.Content() + data[..n]
      && v.sent == w.sent && v.active && (n == |data| || n == w.ring.Free() || |w.ring.buffer| - w.ring.head < |data|)
  {
    hide Ring.Content, Stored, PutBump, PutEnds;
    PutEndsIff(w.ring, |data|);
    if w.active && w.ring.Free() > 0 && |data| > 0 && PutEnds(w.ring, |data|) {
      PutCountFits(w.ring, |data|);
      CopiedIsPrefix(|data|, w.ring.Free(), |w.ring.buffer| - w.ring.head);
      AcceptKeepsInv(w, data);
      StoredAppends(w.ring, data[..PutCount(w.ring, |data|)]);
      SignalOutcome(Accept(w, data), ok);
    }
    hide Inv, SignalWriter, PutCount;
  }

  // ----- runs

  predicate Initial(w: Writer) {
    && |w.ring.buffer| > 0 && w.ring.head == 0 && w.ring.tail == 0
    && w.permits == 1 && w.active && w.transfer == None && w.accepted == [] && w.sent == []
  }

  /** The state after a run, None if one of its steps is not enabled */
  function Run(w: Writer, events: seq<Event>): (r: Option<Writer>)
    requires w.ring.Valid()
    ensures r.Some? ==> r.value.ring.Valid()
    decreases |events|
  {
    if events == [] then Some(w)
    else
      match Step(w, events[0])
      case None => None
      case Some(v) => Run(v, events[1..])
  }

  lemma {:induction false} RunKeepsInv(w: Writer, events: seq<Event>)
    requires Inv(w) && Run(w, events).Some?
    ensures Inv(Run(w, events).value)
    decreases |events|
  {
    hide Step, Inv, Ring.Content;
    if events != [] {
      InvIsValid(w);
      StepKeepsInv(w, events[0]);
      RunKeepsInv(Step(w, events[0]).value, events[1..]);
    }
  }

  lemma InvIsValid(w: Writer)
    requires Inv(w)
    ensures w.ring.Valid()
  {
  }

  /**
   * In every run, whatever the device accepts or completes and however much of it: the bytes sent and then those in the
   * ring are the bytes accepted, in order; and at most one transfer is in flight, of bytes the ring still starts with.
   */
  lemma BytesAreConserved(w: Writer, events: seq<Event>)
    requires Initial(w) && Run(w, events).Some?
    ensures var v := Run(w, events).value;
      && v.accepted == v.sent + v.ring.Content()
      && (v.permits == 0 <==> v.transfer.Some?)
      && (v.transfer.Some? ==> v.transfer.value.bytes <= v.ring.Content())
  {
    RunKeepsInv(w, events);
    hide Step, Ring.Content, Run;
    var v := Run(w, events).value;
    if v.transfer.Some? {
      var t := v.transfer.value;
      ContentRun(v.ring, 0, |t.bytes|);
      assert v.ring.Content()[..|t.bytes|] == t.bytes;
    }
  }

  /** Nothing but its completion touches a transfer in flight: neither its extent nor the bytes in its region change. */
  lemma TransferIsUntouched(w: Writer, e: Event)
    requires Inv(w) && w.transfer.Some? && !e.Complete? && Step(w, e).Some?
    ensures var v := Step(w, e).value;
      v.transfer == w.transfer && v.ring.tail == w.ring.tail && Inv(v) &&
      Region(v.ring, v.transfer.value) == Region(w.ring, w.transfer.value)
  {
    hide Ring.Content, Stored;
    StepKeepsInv(w, e);
  }

  /** What was sent and what was accepted only ever grow at the end. */
  lemma HistoriesGrow(w: Writer, e: Event)
    requires Inv(w) && Step(w, e).Some?
    ensures w.sent <= Step(w, e).value.sent && w.accepted <= Step(w, e).value.accepted
  {
    hide Ring.Content, Stored, Inv;
  }

  lemma {:induction false} SentOnceAndForAll(w: Writer, events: seq<Event>)
    requires Inv(w) && Run(w, events).Some?
    ensures w.sent <= Run(w, events).value.sent && w.accepted <= Run(w, events).value.accepted
    decreases |events|
  {
    hide Step, Inv;
    InvIsValid(w);
    if events != [] {
      StepKeepsInv(w, events[0]);
      HistoriesGrow(w, events[0]);
      SentOnceAndForAll(Step(w, events[0]).value, events[1..]);
    }
  }

  lemma RunNothing(w: Writer)
    requires Inv(w)
    ensures Run(w, []) == Some(w)
  {
  }

  lemma AcceptedOnlyByWrite(w: Writer, e: Event)
    requires Inv(w) && !e.Write?
    ensures Step(w, e).Some? ==> Step(w, e).value.accepted == w.accepted
  {
    hide Ring.Content, Inv;
  }

  lemma CloseStep(w: Writer)
    requires Inv(w)
    ensures Step(w, Close) == Some(w.(active := false)) && Inv(w.(active := false))
  {
  }

  lemma {:induction false} RunOneMore(w: Writer, events: seq<Event>, e: Event)
    requires Inv(w) && Run(w, events).Some?
    ensures Run(w, events + [e]) == Step(Run(w, events).value, e)
    decreases |events|
  {
    hide Step, Inv;
    InvIsValid(w);
    if events == [] {
      assert [e][1..] == [];
      StepKeepsInv(w, e);
    } else {
      StepKeepsInv(w, events[0]);
      RunOneMore(Step(w, events[0]).value, events[1..], e);
      assert (events + [e])[1..] == events[1..] + [e];
    }
  }

  // ----- the device is kept busy

  predicate Busy(w: Writer)
    requires w.ring.Valid()
  {
    w.active && w.ring.Length() > 0 ==> w.transfer.Some?
  }

  /** A step whose transfer the device accepts leaves no bytes waiting without one, if the buffer holds at least two
      bytes. */
  lemma DeviceIsKeptBusy(w: Writer, e: Event)
    requires Inv(w) && Busy(w) && Step(w, e).Some?
    requires e == Signal(true) || e.Close? || (e.Write? && e.ok) || (e.Complete? && e.ok)
    ensures Inv(Step(w, e).value)
    ensures |w.ring.buffer| > 2 ==> Busy(Step(w, e).value)
  {
    hide Ring.Content, Stored;
    StepKeepsInv(w, e);
  }

  /** In a smaller one half the size is zero, and no transfer is ever started. */
  lemma TinyBufferNeverSends(w: Writer, ok: bool)
    requires Inv(w) && w.transfer == None && w.active && w.ring.Length() > 0
    ensures SignalWriter(w, ok) == w <==> !ok || |w.ring.buffer| <= 2
  {
  }
}
