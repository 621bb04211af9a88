/** DAF::SemaphoreControlledChannel: a bounded buffer made of a container and two semaphores, putGuard_ and
    takeGuard_, and its two variants, the FIFO queue and the priority channel.

    A call of put or take acquires one semaphore, moves its item under the channel lock, and releases the other
    semaphore: three steps between which anything may happen.  Of a semaphore only its permits matter here: acquire
    takes one that is there, or fails (module Semaphore). */
module SemaphoreControlledChannel {
  import opened Counting
  import opened Options

  /** Granted: past its acquire.  Moved: the item is in (put) or out of (take) the container, the other semaphore not
      yet released.  Failed: timed out, interrupted, or an exception; nothing has moved. */
  datatype At = Entering | Granted | Moved | Returned | Failed

  datatype Call<+T> = Call(isPut: bool, at: At, item: Option<T>)

  /** Items are known by their place in `inserted`, the history of all insertions, and `sources[i]` is the put that made
      the insertion; `taken` is the history of extractions, `takers[i]` the take that made one, and `seen[i]` how many
      items had been inserted by then.  `fault` records an extraction from an empty container, which is undefined in
      the source. */
  datatype State<+T> = State(capacity: nat, putPermits: int, takePermits: int, queue: seq<nat>, calls: seq<Call<T>>,
                             inserted: seq<T>, sources: seq<nat>, taken: seq<nat>, takers: seq<nat>, seen: seq<nat>,
                             fault: bool)

  /** FIFO extracts the front; Priority(less) extracts a place such that no other item is greater. */
  datatype Discipline<!T> = FIFO | Priority(less: (T, T) -> bool)

  datatype Event<+T> =
    | StartPut(item: T)
    | StartTake
    | Acquire(c: nat)
    | Insert(c: nat)
    | Extract(c: nat, place: nat)
    | Release(c: nat)
    | Fail(c: nat)  // acquire fails, or insert or extract throws or fails and the permit is given back

  predicate PutGranted<T>(call: Call<T>) { call.isPut && call.at == Granted }
  predicate PutMoved<T>(call: Call<T>) { call.isPut && call.at == Moved }
  predicate TakeGranted<T>(call: Call<T>) { !call.isPut && call.at == Granted }
  predicate TakeMoved<T>(call: Call<T>) { !call.isPut && call.at == Moved }

  function PutsGranted<T>(s: State<T>): nat { Count(s.calls, c => PutGranted(c)) }
  function PutsMoved<T>(s: State<T>): nat { Count(s.calls, c => PutMoved(c)) }
  function TakesGranted<T>(s: State<T>): nat { Count(s.calls, c => TakeGranted(c)) }
  function TakesMoved<T>(s: State<T>): nat { Count(s.calls, c => TakeMoved(c)) }

  function Init<T>(capacity: nat): State<T> {
    State(capacity, capacity, 0, [], [], [], [], [], [], [], false)
  }

  function SetAt<T>(s: State<T>, c: nat, at: At): State<T>
    requires c < |s.calls|
  {
    s.(calls := s.calls[c := s.calls[c].(at := at)])
  }

  ghost predicate Places<T>(inserted: seq<T>, places: seq<nat>) {
    forall i :: 0 <= i < |places| ==> places[i] < |inserted|
  }

  /** The place in the queue that extract chooses. */
  ghost predicate Chosen<T>(d: Discipline<T>, inserted: seq<T>, queue: seq<nat>, place: nat)
    requires Places(inserted, queue) && place < |queue|
  {
    match d
    case FIFO => place == 0
    case Priority(less) => forall j :: 0 <= j < |queue| ==> !less(inserted[queue[place]], inserted[queue[j]])
  }

  ghost function Step<T>(d: Discipline<T>, s: State<T>, e: Event<T>): (r: Option<State<T>>)
    ensures r.Some? ==> r.value.capacity == s.capacity
  {
    match e
    case StartPut(item) => Some(s.(calls := s.calls + [Call(true, Entering, Some(item))]))
    case StartTake => Some(s.(calls := s.calls + [Call(false, Entering, None)]))
    case Acquire(c) =>
      if c >= |s.calls| || s.calls[c].at != Entering then None
      else if s.calls[c].isPut then
        if s.putPermits > 0 then Some(SetAt(s, c, Granted).(putPermits := s.putPermits - 1)) else None
      else
        if s.takePermits > 0 then Some(SetAt(s, c, Granted).(takePermits := s.takePermits - 1)) else None
    case Insert(c) =>
      if c < |s.calls| && PutGranted(s.calls[c]) && s.calls[c].item.Some?
      then
        Some(SetAt(s, c, Moved).(queue := s.queue + [|s.inserted|],
                                 inserted := s.inserted + [s.calls[c].item.value], sources := s.sources + [c]))
      else None
    case Extract(c, place) =>
      if c >= |s.calls| || !TakeGranted(s.calls[c]) then None
      else if s.queue == [] then Some(s.(fault := true))
      else if place >= |s.queue| || !Places(s.inserted, s.queue) || !Chosen(d, s.inserted, s.queue, place) then None
      else
        Some(s.(calls := s.calls[c := Call(false, Moved, Some(s.inserted[s.queue[place]]))],
                queue := s.queue[..place] + s.queue[place + 1..],
                taken := s.taken + [s.queue[place]], takers := s.takers + [c], seen := s.seen + [|s.inserted|]))
    case Release(c) =>
      if c >= |s.calls| || s.calls[c].at != Moved then None
      else if s.calls[c].isPut then Some(SetAt(s, c, Returned).(takePermits := s.takePermits + 1))
      else Some(SetAt(s, c, Returned).(putPermits := s.putPermits + 1))
    case Fail(c) =>
      if c >= |s.calls| || s.calls[c].at !in {Entering, Granted} then None
      else if s.calls[c].at == Entering then Some(SetAt(s, c, Failed))
      else if s.calls[c].isPut then Some(SetAt(s, c, Failed).(putPermits := s.putPermits + 1))
      else Some(SetAt(s, c, Failed).(takePermits := s.takePermits + 1))
  }

  // ----- the invariant

  ghost predicate PermitsOk<T>(s: State<T>) {
    && s.putPermits >= 0 && s.takePermits >= 0
    && s.putPermits + PutsGranted(s) + |s.queue| + TakesMoved(s) == s.capacity
    && s.takePermits + PutsMoved(s) + TakesGranted(s) == |s.queue|
    && !s.fault
  }

  /** The places 0 to n - 1, each once. */
  ghost function Upto(n: nat): multiset<nat> {
    if n == 0 then multiset{} else Upto(n - 1) + multiset{n - 1}
  }

  lemma {:induction false} UptoCounts(n: nat, q: nat)
    ensures Upto(n)[q] == if q < n then 1 else 0
  {
    if n > 0 { UptoCounts(n - 1, q); }
  }

  /** Every inserted item is in the queue or has been taken, once. */
  ghost predicate Once<T>(inserted: seq<T>, queue: seq<nat>, taken: seq<nat>, seen: seq<nat>) {
    && Places(inserted, queue) && Places(inserted, taken)
    && multiset(queue) + multiset(taken) == Upto(|inserted|)
    && |taken| == |seen|
    && (forall i :: 0 <= i < |seen| ==> seen[i] <= |inserted|)
  }

  ghost predicate InOrder(n: nat, queue: seq<nat>, taken: seq<nat>) {
    && |taken| + |queue| == n
    && (forall i :: 0 <= i < |taken| ==> taken[i] == i)
    && (forall i :: 0 <= i < |queue| ==> queue[i] == |taken| + i)
  }

  /** None of the items at `places` that were there when taken[i] was taken is greater than it. */
  ghost predicate NotPassedOver<T>(
      less: (T, T) -> bool, inserted: seq<T>, taken: seq<nat>, seen: seq<nat>, i: nat, places: seq<nat>)
    requires Places(inserted, places) && Places(inserted, taken) && i < |taken| == |seen|
  {
    forall j :: 0 <= j < |places| && places[j] < seen[i] ==> !less(inserted[taken[i]], inserted[places[j]])
  }

  ghost predicate Served<T>(
      less: (T, T) -> bool, inserted: seq<T>, queue: seq<nat>, taken: seq<nat>, seen: seq<nat>, i: nat)
    requires Once(inserted, queue, taken, seen) && i < |taken|
  {
    && NotPassedOver(less, inserted, taken, seen, i, queue)
    && NotPassedOver(less, inserted, taken, seen, i, taken[i + 1..])
  }

  ghost predicate Ordered<T>(d: Discipline<T>, inserted: seq<T>, queue: seq<nat>, taken: seq<nat>, seen: seq<nat>)
    requires Once(inserted, queue, taken, seen)
  {
    match d
    case FIFO => InOrder(|inserted|, queue, taken)
    case Priority(less) => forall i :: 0 <= i < |taken| ==> Served(less, inserted, queue, taken, seen, i)
  }

  ghost predicate Inv<T>(d: Discipline<T>, s: State<T>) {
    && PermitsOk(s)
    && Once(s.inserted, s.queue, s.taken, s.seen)
    && Ordered(d, s.inserted, s.queue, s.taken, s.seen)
  }

  lemma CountsOfUpdate<T>(s: State<T>, t: State<T>, c: nat, call: Call<T>)
    requires c < |s.calls| && t.calls == s.calls[c := call]
    ensures PutsGranted(t) == PutsGranted(s) - One(PutGranted(s.calls[c])) + One(PutGranted(call))
    ensures PutsMoved(t) == PutsMoved(s) - One(PutMoved(s.calls[c])) + One(PutMoved(call))
    ensures TakesGranted(t) == TakesGranted(s) - One(TakeGranted(s.calls[c])) + One(TakeGranted(call))
    ensures TakesMoved(t) == TakesMoved(s) - One(TakeMoved(s.calls[c])) + One(TakeMoved(call))
  {
    CountUpdate(s.calls, c, call, c => PutGranted(c));
    CountUpdate(s.calls, c, call, c => PutMoved(c));
    CountUpdate(s.calls, c, call, c => TakeGranted(c));
    CountUpdate(s.calls, c, call, c => TakeMoved(c));
  }

  lemma CountsOfAppend<T>(s: State<T>, t: State<T>, call: Call<T>)
    requires t.calls == s.calls + [call] && call.at == Entering
    ensures PutsGranted(t) == PutsGranted(s) && PutsMoved(t) == PutsMoved(s)
    ensures TakesGranted(t) == TakesGranted(s) && TakesMoved(t) == TakesMoved(s)
  {
    CountAppend(s.calls, call, c => PutGranted(c));
    CountAppend(s.calls, call, c => PutMoved(c));
    CountAppend(s.calls, call, c => TakeGranted(c));
    CountAppend(s.calls, call, c => TakeMoved(c));
  }

  lemma InsertKeepsOrder<T>(d: Discipline<T>, inserted: seq<T>, queue: seq<nat>, taken: seq<nat>, seen: seq<nat>, item: T)
    requires Once(inserted, queue, taken, seen) && Ordered(d, inserted, queue, taken, seen)
    ensures Once(inserted + [item], queue + [|inserted|], taken, seen)
    ensures Ordered(d, inserted + [item], queue + [|inserted|], taken, seen)
  {
    var inserted', queue' := inserted + [item], queue + [|inserted|];
    if d.Priority? {
      forall i | 0 <= i < |taken| ensures Served(d.less, inserted', queue', taken, seen, i) {
        assert Served(d.less, inserted, queue, taken, seen, i);
      }
    }
  }

  lemma ExtractKeepsOnce<T>(inserted: seq<T>, queue: seq<nat>, taken: seq<nat>, seen: seq<nat>, place: nat)
    requires Once(inserted, queue, taken, seen) && place < |queue|
    ensures Once(inserted, queue[..place] + queue[place + 1..], taken + [queue[place]], seen + [|inserted|])
  {
    assert queue == queue[..place] + [queue[place]] + queue[place + 1..];
  }

  lemma ExtractKeepsOrder<T>(
      d: Discipline<T>, inserted: seq<T>, queue: seq<nat>, taken: seq<nat>, seen: seq<nat>, place: nat)
    requires Once(inserted, queue, taken, seen) && Ordered(d, inserted, queue, taken, seen)
    requires place < |queue| && Chosen(d, inserted, queue, place)
    ensures var queue', taken', seen' := queue[..place] + queue[place + 1..], taken + [queue[place]], seen + [|inserted|];
            Once(inserted, queue', taken', seen') && Ordered(d, inserted, queue', taken', seen')
  {
    ExtractKeepsOnce(inserted, queue, taken, seen, place);
    if d.Priority? {
      var queue', taken', seen' := queue[..place] + queue[place + 1..], taken + [queue[place]], seen + [|inserted|];
      forall i | 0 <= i < |taken'| ensures Served(d.less, inserted, queue', taken', seen', i) {
        if i < |taken| {
          assert Served(d.less, inserted, queue, taken, seen, i);
          assert taken'[i + 1..] == taken[i + 1..] + [queue[place]];
        }
      }
    }
  }

  lemma StartKeepsInv<T>(d: Discipline<T>, s: State<T>, call: Call<T>)
    requires Inv(d, s) && call.at == Entering
    ensures Inv(d, s.(calls := s.calls + [call]))
  {
    CountsOfAppend(s, s.(calls := s.calls + [call]), call);
  }

  lemma InsertKeepsInv<T>(d: Discipline<T>, s: State<T>, c: nat)
    requires Inv(d, s) && Step(d, s, Insert(c)).Some?
    ensures Inv(d, Step(d, s, Insert(c)).value)
  {
    hide Count;
    var t := Step(d, s, Insert(c)).value;
    CountsOfUpdate(s, t, c, t.calls[c]);
    InsertKeepsOrder(d, s.inserted, s.queue, s.taken, s.seen, s.calls[c].item.value);
  }

  lemma ExtractKeepsInv<T>(d: Discipline<T>, s: State<T>, c: nat, place: nat)
    requires Inv(d, s) && Step(d, s, Extract(c, place)).Some?
    ensures Inv(d, Step(d, s, Extract(c, place)).value)
  {
    hide Count, Once, Ordered, Chosen;
    var t := Step(d, s, Extract(c, place)).value;
    CountPositive(s.calls, c, c => TakeGranted(c));
    CountsOfUpdate(s, t, c, t.calls[c]);
    ExtractKeepsOrder(d, s.inserted, s.queue, s.taken, s.seen, place);
  }

  /** The steps that move permits and no item. */
  lemma PermitStepKeepsInv<T>(d: Discipline<T>, s: State<T>, e: Event<T>)
    requires Inv(d, s) && Step(d, s, e).Some? && (e.Acquire? || e.Release? || e.Fail?)
    ensures Inv(d, Step(d, s, e).value)
  {
    hide Count;
    var t := Step(d, s, e).value;
    CountsOfUpdate(s, t, e.c, t.calls[e.c]);
  }

  lemma StepKeepsInv<T>(d: Discipline<T>, s: State<T>, e: Event<T>)
    requires Inv(d, s) && Step(d, s, e).Some?
    ensures Inv(d, Step(d, s, e).value)
  {
    match e
    case StartPut(item) => StartKeepsInv(d, s, Call(true, Entering, Some(item)));
    case StartTake => StartKeepsInv(d, s, Call(false, Entering, None));
    case Insert(c) => InsertKeepsInv(d, s, c);
    case Extract(c, place) => ExtractKeepsInv(d, s, c, place);
    case _ => PermitStepKeepsInv(d, s, e);
  }

  /** The state after a run, or None when some event could not happen where it stands. */
  ghost function Run<T>(d: Discipline<T>, capacity: nat, es: seq<Event<T>>): Option<State<T>> {
    if es == [] then Some(Init(capacity))
    else
      match Run(d, capacity, es[..|es| - 1])
      case None => None
      case Some(s) => Step(d, s, es[|es| - 1])
  }

  lemma {:induction false} RunKeepsInv<T>(d: Discipline<T>, capacity: nat, es: seq<Event<T>>)
    requires Run(d, capacity, es).Some?
    ensures Inv(d, Run(d, capacity, es).value) && Run(d, capacity, es).value.capacity == capacity
  {
    if es == [] {
      InitInv(d, capacity);
    } else {
      RunKeepsInv(d, capacity, es[..|es| - 1]);
      StepKeepsInv(d, Run(d, capacity, es[..|es| - 1]).value, es[|es| - 1]);
    }
  }

  lemma InitInv<T>(d: Discipline<T>, capacity: nat)
    ensures Inv(d, Init(capacity))
  {
  }

  // ----- over every run

  /** The capacity is never exceeded: permits to put, puts about to insert, the container, and takes past their
      extraction that have not given their permit back, add up to it; and no extraction meets an empty container. */
  lemma BoundedBuffer<T>(d: Discipline<T>, capacity: nat, es: seq<Event<T>>)
    requires Run(d, capacity, es).Some?
    ensures var s := Run(d, capacity, es).value;
            && s.putPermits + PutsGranted(s) + |s.queue| + TakesMoved(s) == capacity
            && s.putPermits >= 0 && s.takePermits >= 0 && !s.fault
            && (TakesGranted(s) > 0 ==> s.queue != [])
  {
    hide Step, Once, Ordered;
    RunKeepsInv(d, capacity, es);
  }

  /** size() and capacity() count permits only: they are the length of the container and the capacity exactly when no
      call stands between its two semaphores. */
  lemma ReportedSizes<T>(d: Discipline<T>, capacity: nat, es: seq<Event<T>>)
    requires Run(d, capacity, es).Some?
    ensures var s := Run(d, capacity, es).value;
            && (s.takePermits == |s.queue| <==> PutsMoved(s) == 0 && TakesGranted(s) == 0)
            && (s.putPermits + s.takePermits == capacity <==>
                  PutsGranted(s) == 0 && PutsMoved(s) == 0 && TakesGranted(s) == 0 && TakesMoved(s) == 0)
  {
    hide Step, Once, Ordered;
    RunKeepsInv(d, capacity, es);
  }

  /** Every item inserted is in the container or has been taken, never both and never twice. */
  lemma EveryItemOnce<T>(d: Discipline<T>, capacity: nat, es: seq<Event<T>>, q: nat)
    requires Run(d, capacity, es).Some? && q < |Run(d, capacity, es).value.inserted|
    ensures var s := Run(d, capacity, es).value; multiset(s.queue)[q] + multiset(s.taken)[q] == 1
  {
    hide Step, PermitsOk, Ordered;
    RunKeepsInv(d, capacity, es);
    var s := Run(d, capacity, es).value;
    UptoCounts(|s.inserted|, q);
    assert (multiset(s.queue) + multiset(s.taken))[q] == 1;
  }

  function ItemsAt<T>(inserted: seq<T>, places: seq<nat>): (items: seq<T>)
    requires forall i :: 0 <= i < |places| ==> places[i] < |inserted|
    ensures |items| == |places|
  {
    seq(|places|, i requires 0 <= i < |places| => inserted[places[i]])
  }

  lemma InOrderItems<T>(inserted: seq<T>, queue: seq<nat>, taken: seq<nat>)
    requires InOrder(|inserted|, queue, taken)
    ensures ItemsAt(inserted, taken) + ItemsAt(inserted, queue) == inserted
  {
  }

  /** The queue is FIFO: what has been taken, then what is queued, is what was inserted, in that order. */
  lemma QueueIsFIFO<T>(capacity: nat, es: seq<Event<T>>)
    requires Run(FIFO, capacity, es).Some?
    ensures var s := Run(FIFO, capacity, es).value;
            && Places(s.inserted, s.taken) && Places(s.inserted, s.queue)
            && ItemsAt(s.inserted, s.taken) + ItemsAt(s.inserted, s.queue) == s.inserted
  {
    hide Step, PermitsOk;
    RunKeepsInv(FIFO, capacity, es);
    var s := Run(FIFO, capacity, es).value;
    InOrderItems(s.inserted, s.queue, s.taken);
  }

  /** The priority channel never passes over a greater item: an item that was in the channel when taken[i] was taken,
      and has been taken later or is still there, is not greater. */
  lemma PriorityOrder<T>(less: (T, T) -> bool, capacity: nat, es: seq<Event<T>>, i: nat, q: nat)
    requires Run(Priority(less), capacity, es).Some?
    requires var s := Run(Priority(less), capacity, es).value;
             i < |s.taken| && |s.seen| == |s.taken| && q < s.seen[i] && q !in s.taken[..i + 1]
    ensures var s := Run(Priority(less), capacity, es).value;
            q < |s.inserted| && s.taken[i] < |s.inserted| && !less(s.inserted[s.taken[i]], s.inserted[q])
  {
    hide Step, PermitsOk;
    RunKeepsInv(Priority(less), capacity, es);
    var s := Run(Priority(less), capacity, es).value;
    EveryItemOnce(Priority(less), capacity, es, q);
    assert Served(less, s.inserted, s.queue, s.taken, s.seen, i);
    assert s.taken == s.taken[..i + 1] + s.taken[i + 1..];
    assert q in s.queue || q in s.taken;
  }

  // ----- who put in what, and who took it

  predicate HasMoved<T>(call: Call<T>) { call.at in {Moved, Returned} }

  /** A call begins with nothing moved, and a put with the item it is given, which it presents to the end. */
  lemma PresentedItemStays<T>(d: Discipline<T>, s: State<T>, e: Event<T>, c: nat)
    requires Step(d, s, e).Some?
    ensures var t := Step(d, s, e).value;
            && (e.StartPut? ==> t.calls == s.calls + [Call(true, Entering, Some(e.item))])
            && (e.StartTake? ==> t.calls == s.calls + [Call(false, Entering, None)])
            && (c < |s.calls| ==>
                  && c < |t.calls| && t.calls[c].isPut == s.calls[c].isPut
                  && (s.calls[c].isPut ==> t.calls[c].item == s.calls[c].item))
  {
    hide Chosen;
  }

  /** Insertion i was made by a put, of the item it presents. */
  ghost predicate SourceOk<T>(s: State<T>, i: nat)
    requires i < |s.inserted| == |s.sources|
  {
    var p := s.sources[i];
    p < |s.calls| && s.calls[p].isPut && HasMoved(s.calls[p]) && s.calls[p].item == Some(s.inserted[i])
  }

  /** Extraction i was made by a take, which got that item. */
  ghost predicate TakerOk<T>(s: State<T>, i: nat)
    requires i < |s.taken| == |s.takers|
  {
    var k := s.takers[i];
    && k < |s.calls| && !s.calls[k].isPut && HasMoved(s.calls[k])
    && s.taken[i] < |s.inserted| && s.calls[k].item == Some(s.inserted[s.taken[i]])
  }

  /** A call that has moved its item is in its history, and only such a call. */
  ghost predicate MoverOk<T>(s: State<T>, c: nat)
    requires c < |s.calls|
  {
    && (s.calls[c].isPut ==> s.calls[c].item.Some? && (HasMoved(s.calls[c]) <==> c in s.sources))
    && (!s.calls[c].isPut ==> (HasMoved(s.calls[c]) <==> c in s.takers))
  }

  ghost predicate Attributed<T>(s: State<T>) {
    && |s.sources| == |s.inserted| && |s.takers| == |s.taken|
    && (forall i :: 0 <= i < |s.inserted| ==> SourceOk(s, i))
    && (forall i :: 0 <= i < |s.taken| ==> TakerOk(s, i))
    && (forall c :: 0 <= c < |s.calls| ==> MoverOk(s, c))
    && (forall i, j :: 0 <= i < j < |s.sources| ==> s.sources[i] != s.sources[j])
    && (forall i, j :: 0 <= i < j < |s.takers| ==> s.takers[i] != s.takers[j])
  }

  /** A step that leaves the histories alone, and does not change what a call is, presents, or has moved */
  lemma AttributionStays<T>(s: State<T>, t: State<T>)
    requires Attributed(s) && |s.calls| <= |t.calls|
    requires t.inserted == s.inserted && t.sources == s.sources && t.taken == s.taken && t.takers == s.takers
    requires forall c :: 0 <= c < |s.calls| ==>
      && t.calls[c].isPut == s.calls[c].isPut && t.calls[c].item == s.calls[c].item
      && HasMoved(t.calls[c]) == HasMoved(s.calls[c])
    requires forall c :: |s.calls| <= c < |t.calls| ==>
      !HasMoved(t.calls[c]) && (t.calls[c].isPut ==> t.calls[c].item.Some?)
    ensures Attributed(t)
  {
    forall i | 0 <= i < |t.inserted| ensures SourceOk(t, i) { assert SourceOk(s, i); }
    forall i | 0 <= i < |t.taken| ensures TakerOk(t, i) { assert TakerOk(s, i); }
    assert forall i :: 0 <= i < |s.sources| ==> SourceOk(s, i) && s.sources[i] < |s.calls|;
    assert forall i :: 0 <= i < |s.takers| ==> TakerOk(s, i) && s.takers[i] < |s.calls|;
    forall c | 0 <= c < |t.calls| ensures MoverOk(t, c) { if c < |s.calls| { assert MoverOk(s, c); } }
  }

  lemma InsertKeepsAttribution<T>(s: State<T>, c: nat, call: Call<T>, item: T)
    requires Attributed(s) && c < |s.calls| && s.calls[c].isPut && !HasMoved(s.calls[c])
    requires call == s.calls[c].(at := Moved) && call.item == Some(item)
    ensures Attributed(s.(calls := s.calls[c := call], queue := s.queue + [|s.inserted|],
                          inserted := s.inserted + [item], sources := s.sources + [c]))
  {
    var t := s.(calls := s.calls[c := call], queue := s.queue + [|s.inserted|],
                inserted := s.inserted + [item], sources := s.sources + [c]);
    assert MoverOk(s, c);
    forall i | 0 <= i < |t.inserted| ensures SourceOk(t, i) { if i < |s.inserted| { assert SourceOk(s, i); } }
    forall i | 0 <= i < |t.taken| ensures TakerOk(t, i) { assert TakerOk(s, i); }
    forall b | 0 <= b < |t.calls| ensures MoverOk(t, b) { assert MoverOk(s, b); }
  }

  lemma ExtractKeepsAttribution<T>(s: State<T>, t: State<T>, c: nat, q: nat)
    requires Attributed(s) && c < |s.calls| && !s.calls[c].isPut && !HasMoved(s.calls[c]) && q < |s.inserted|
    requires t.calls == s.calls[c := Call(false, Moved, Some(s.inserted[q]))]
    requires t.inserted == s.inserted && t.sources == s.sources
    requires t.taken == s.taken + [q] && t.takers == s.takers + [c]
    ensures Attributed(t)
  {
    assert MoverOk(s, c);
    forall i | 0 <= i < |t.inserted| ensures SourceOk(t, i) { assert SourceOk(s, i); }
    forall i | 0 <= i < |t.taken| ensures TakerOk(t, i) { if i < |s.taken| { assert TakerOk(s, i); } }
    forall b | 0 <= b < |t.calls| ensures MoverOk(t, b) { assert MoverOk(s, b); }
  }

  lemma ExtractStepKeepsAttribution<T>(d: Discipline<T>, s: State<T>, c: nat, place: nat)
    requires Attributed(s) && Step(d, s, Extract(c, place)).Some?
    ensures Attributed(Step(d, s, Extract(c, place)).value)
  {
    hide Attributed, Chosen;
    var t := Step(d, s, Extract(c, place)).value;
    if s.queue == [] { AttributionStays(s, t); } else { ExtractKeepsAttribution(s, t, c, s.queue[place]); }
  }

  /** The steps that move no item */
  lemma OtherStepKeepsAttribution<T>(d: Discipline<T>, s: State<T>, e: Event<T>)
    requires Attributed(s) && Step(d, s, e).Some? && !e.Insert? && !e.Extract?
    ensures Attributed(Step(d, s, e).value)
  {
    hide Attributed, Chosen, Places;
    AttributionStays(s, Step(d, s, e).value);
  }

  lemma StepKeepsAttribution<T>(d: Discipline<T>, s: State<T>, e: Event<T>)
    requires Attributed(s) && Step(d, s, e).Some?
    ensures Attributed(Step(d, s, e).value)
  {
    match e
    case Insert(c) =>
      hide Attributed, Chosen, Places;
      InsertKeepsAttribution(s, c, Step(d, s, e).value.calls[c], s.calls[c].item.value);
    case Extract(c, place) => hide *; ExtractStepKeepsAttribution(d, s, c, place);
    case _ => hide *; OtherStepKeepsAttribution(d, s, e);
  }

  lemma InitIsAttributed<T>(capacity: nat)
    ensures Attributed(Init<T>(capacity))
  {
  }

  lemma {:induction false} RunKeepsAttribution<T>(d: Discipline<T>, capacity: nat, es: seq<Event<T>>)
    requires Run(d, capacity, es).Some?
    ensures Attributed(Run(d, capacity, es).value)
  {
    hide Step, Attributed;
    if es == [] {
      InitIsAttributed<T>(capacity);
    } else {
      RunKeepsAttribution(d, capacity, es[..|es| - 1]);
      StepKeepsAttribution(d, Run(d, capacity, es[..|es| - 1]).value, es[|es| - 1]);
    }
  }

  /** Extraction i handed the item of put p to take k. */
  predicate Transfer<T>(s: State<T>, i: nat, p: nat, k: nat) {
    i < |s.taken| && i < |s.takers| && s.taken[i] < |s.sources| && s.sources[s.taken[i]] == p && s.takers[i] == k
  }

  lemma TakenOnce<T>(d: Discipline<T>, capacity: nat, es: seq<Event<T>>, i: nat, j: nat)
    requires Run(d, capacity, es).Some? && i < j < |Run(d, capacity, es).value.taken|
    ensures var s := Run(d, capacity, es).value; s.taken[i] < |s.inserted| && s.taken[i] != s.taken[j]
  {
    hide Step, PermitsOk, Ordered;
    RunKeepsInv(d, capacity, es);
    var s := Run(d, capacity, es).value;
    EveryItemOnce(d, capacity, es, s.taken[i]);
    assert s.taken == s.taken[..j] + s.taken[j..];
    assert s.taken[i] in s.taken[..j] && s.taken[j] in s.taken[j..];
  }

  /** Puts and takes pair off: a transfer is from a put that has presented the item to a take that has got it, and no
      put and no take is in two transfers. */
  lemma TransfersPairOff<T>(
      d: Discipline<T>, capacity: nat, es: seq<Event<T>>, i: nat, p: nat, k: nat, j: nat, q: nat, l: nat)
    requires Run(d, capacity, es).Some?
    requires Transfer(Run(d, capacity, es).value, i, p, k) && Transfer(Run(d, capacity, es).value, j, q, l)
    ensures var s := Run(d, capacity, es).value;
            && p < |s.calls| && s.calls[p].isPut && s.calls[p].at in {Moved, Returned}
            && k < |s.calls| && !s.calls[k].isPut && s.calls[k].at in {Moved, Returned}
            && s.calls[p].item.Some? && s.calls[k].item == s.calls[p].item
    ensures (p == q || k == l) ==> i == j
  {
    hide Step, Run;
    RunKeepsAttribution(d, capacity, es);
    var s := Run(d, capacity, es).value;
    assert TakerOk(s, i) && SourceOk(s, s.taken[i]);
    if i < j { TakenOnce(d, capacity, es, i, j); }
    if j < i { TakenOnce(d, capacity, es, j, i); }
  }

  /** What a take has got, or will return, was handed to it by a transfer; and what a put has put in is in the container
      or was handed over, each exactly once. */
  lemma NothingLostOrInvented<T>(d: Discipline<T>, capacity: nat, es: seq<Event<T>>, c: nat)
    requires Run(d, capacity, es).Some? && c < |Run(d, capacity, es).value.calls|
    ensures var s := Run(d, capacity, es).value;
            var moved := s.calls[c].at in {Moved, Returned};
            if s.calls[c].isPut then
              (moved <==> exists place :: 0 <= place < |s.sources| && s.sources[place] == c
                            && (place in s.queue || exists i: nat, k: nat :: Transfer(s, i, c, k)))
            else
              (moved <==> exists i: nat, p: nat :: Transfer(s, i, p, c))
  {
    hide Step, Run;
    RunKeepsAttribution(d, capacity, es);
    RunKeepsInv(d, capacity, es);
    var s := Run(d, capacity, es).value;
    assert MoverOk(s, c);
    if s.calls[c].isPut && c in s.sources {
      var place :| 0 <= place < |s.sources| && s.sources[place] == c;
      EveryItemOnce(d, capacity, es, place);
      if place !in s.queue {
        var i :| 0 <= i < |s.taken| && s.taken[i] == place;
        assert Transfer(s, i, c, s.takers[i]);
      }
    }
    if !s.calls[c].isPut && c in s.takers {
      var i :| 0 <= i < |s.takers| && s.takers[i] == c;
      assert TakerOk(s, i);
      assert Transfer(s, i, s.sources[s.taken[i]], c);
    }
  }

  /** The queue serves in order: the take that extracts as number i gets the item of the put that inserted as number
      i. */
  lemma QueueServesInOrder<T>(capacity: nat, es: seq<Event<T>>, i: nat)
    requires Run(FIFO, capacity, es).Some? && i < |Run(FIFO, capacity, es).value.takers|
    ensures var s := Run(FIFO, capacity, es).value;
            && i < |s.sources| && Transfer(s, i, s.sources[i], s.takers[i])
            && s.sources[i] < |s.calls| && s.takers[i] < |s.calls|
            && s.calls[s.takers[i]].item == s.calls[s.sources[i]].item
  {
    hide Step, Run;
    RunKeepsAttribution(FIFO, capacity, es);
    RunKeepsInv(FIFO, capacity, es);
    var s := Run(FIFO, capacity, es).value;
    assert TakerOk(s, i) && SourceOk(s, i);
  }

  /** An extraction takes the front of a queue, or out of a priority channel an item than which none there is greater;
      it records how many items had been inserted. */
  lemma ExtractionOutcome<T>(d: Discipline<T>, s: State<T>, c: nat, place: nat)
    requires Inv(d, s) && Step(d, s, Extract(c, place)).Some?
    ensures var t := Step(d, s, Extract(c, place)).value;
            && |t.taken| == |s.taken| + 1 && t.taken[..|s.taken|] == s.taken
            && t.seen == s.seen + [|s.inserted|] && t.inserted == s.inserted
            && var q := t.taken[|s.taken|];
            && q in s.queue && q < |s.inserted| && c < |t.calls| && t.calls[c].item == Some(s.inserted[q])
            && multiset(s.queue) == multiset(t.queue + [q])
            && (d.FIFO? ==> q == s.queue[0])
            && (d.Priority? ==>
                  forall r :: r in s.queue && r < |s.inserted| ==> !d.less(s.inserted[q], s.inserted[r]))
  {
    GrantedTakeFindsItem(d, s, c);
    assert s.queue == s.queue[..place] + [s.queue[place]] + s.queue[place + 1..];
    hide Inv;
  }

  // ----- the class

  /** What std::priority_queue asks of its comparison, as far as it matters here */
  ghost predicate StrictOrder<T(!new)>(less: (T, T) -> bool) {
    && (forall x :: !less(x, x))
    && (forall x, y, z :: less(x, y) && less(y, z) ==> less(x, z))
  }

  lemma ItemsOfInsert<T>(inserted: seq<T>, queue: seq<nat>, item: T)
    requires Places(inserted, queue)
    ensures ItemsAt(inserted + [item], queue + [|inserted|]) == ItemsAt(inserted, queue) + [item]
  {
  }

  lemma ItemsOfExtract<T>(inserted: seq<T>, queue: seq<nat>, place: nat)
    requires Places(inserted, queue) && place < |queue|
    ensures var items := ItemsAt(inserted, queue);
      ItemsAt(inserted, queue[..place] + queue[place + 1..]) == items[..place] + items[place + 1..]
  {
  }

  lemma GrantedTakeFindsItem<T>(d: Discipline<T>, s: State<T>, c: nat)
    requires Inv(d, s) && c < |s.calls| && TakeGranted(s.calls[c])
    ensures s.queue != []
  {
    CountPositive(s.calls, c, c => TakeGranted(c));
  }

  /** One extraction, as the class sees it */
  lemma ExtractEffect<T>(d: Discipline<T>, s: State<T>, c: nat, place: nat)
    requires Inv(d, s) && c < |s.calls| && TakeGranted(s.calls[c])
    requires place < |s.queue| && Chosen(d, s.inserted, s.queue, place)
    ensures Step(d, s, Extract(c, place)).Some?
    ensures var t, items := Step(d, s, Extract(c, place)).value, ItemsAt(s.inserted, s.queue);
      && Inv(d, t) && t.putPermits == s.putPermits && t.takePermits == s.takePermits
      && ItemsAt(t.inserted, t.queue) == items[..place] + items[place + 1..]
      && |t.calls| == |s.calls| && t.calls[c].item == Some(items[place])
  {
    hide PermitsOk, Ordered, Chosen;
    ExtractKeepsInv(d, s, c, place);
    ItemsOfExtract(s.inserted, s.queue, place);
  }

  class SemaphoreControlledChannel<T(!new)> {
    const discipline: Discipline<T>
    var putPermits: int    // of putGuard_
    var takePermits: int   // of takeGuard_
    var items: seq<T>      // channelQ_, in order of insertion

    // the state of the machine, with the calls and the histories
    ghost var state: State<T>

    ghost predicate Valid()
      reads this
    {
      && Inv(discipline, state)
      && putPermits == state.putPermits && takePermits == state.takePermits
      && items == ItemsAt(state.inserted, state.queue)
    }

    constructor (capacity: nat, discipline: Discipline<T>)
      ensures Valid() && state == Init(capacity) && this.discipline == discipline
    {
      this.discipline, putPermits, takePermits, items := discipline, capacity, 0, [];
      state := Init(capacity);
      InitInv(discipline, capacity);
    }

    /** capacity: that of the channel exactly when no call stands between its two semaphores */
    function Capacity(): (n: int)
      requires Valid()
      reads this
      ensures n <= state.capacity
      ensures n == state.capacity <==>
        PutsGranted(state) == 0 && PutsMoved(state) == 0 && TakesGranted(state) == 0 && TakesMoved(state) == 0
    {
      putPermits + takePermits
    }

    /** size: that of the container exactly when no put is about to release its permit and no take to extract */
    function Size(): (n: int)
      requires Valid()
      reads this
      ensures 0 <= n <= |items|
      ensures n == |items| <==> PutsMoved(state) == 0 && TakesGranted(state) == 0
    {
      takePermits
    }

    /** The acquire of put or take, which gets a permit or does not */
    method Acquire(ghost c: nat, isPut: bool) returns (granted: bool)
      requires Valid() && c < |state.calls| && state.calls[c].at == Entering && state.calls[c].isPut == isPut
      modifies this
      ensures Valid() && Some(state) == Step(discipline, old(state), if granted then Event.Acquire(c) else Fail(c))
      ensures granted <==> (if isPut then old(putPermits) else old(takePermits)) > 0
      ensures putPermits == old(putPermits) - One(granted && isPut)
      ensures takePermits == old(takePermits) - One(granted && !isPut)
      ensures items == old(items)
    {
      granted := if isPut then putPermits > 0 else takePermits > 0;
      ghost var e := if granted then Event.Acquire(c) else Fail(c);
      hide Count;
      PermitStepKeepsInv(discipline, state, e);
      state := Step(discipline, state, e).value;
      if granted && isPut {
        putPermits := putPermits - 1;
      } else if granted {
        takePermits := takePermits - 1;
      }
    }

    /** insert of both variants, under the lock of the channel */
    method Insert(ghost c: nat, t: T)
      requires Valid() && c < |state.calls| && PutGranted(state.calls[c]) && state.calls[c].item == Some(t)
      modifies this
      ensures Valid() && Step(discipline, old(state), Event.Insert(c)) == Some(state)
      ensures items == old(items) + [t] && putPermits == old(putPermits) && takePermits == old(takePermits)
    {
      hide Count;
      InsertKeepsInv(discipline, state, c);
      ItemsOfInsert(state.inserted, state.queue, t);
      state := Step(discipline, state, Event.Insert(c)).value;
      items := items + [t];
    }

    /** extract of the queue: front and pop_front */
    method ExtractFront(ghost c: nat) returns (t: T)
      requires Valid() && discipline == FIFO && c < |state.calls| && TakeGranted(state.calls[c])
      modifies this
      ensures Valid() && Step(discipline, old(state), Extract(c, 0)) == Some(state) && state.calls[c].item == Some(t)
      ensures old(items) == [t] + items && putPermits == old(putPermits) && takePermits == old(takePermits)
    {
      GrantedTakeFindsItem(discipline, state, c);
      ExtractEffect(discipline, state, c, 0);
      hide Step, Inv, ItemsAt, Chosen;
      state := Step(discipline, state, Extract(c, 0)).value;
      t := items[0];
      items := items[1..];
    }

    /** extract of the priority channel: top and pop */
    method ExtractTop(ghost c: nat) returns (t: T, ghost place: nat)
      requires Valid() && discipline.Priority? && StrictOrder(discipline.less)
      requires c < |state.calls| && TakeGranted(state.calls[c])
      modifies this
      ensures Valid() && Step(discipline, old(state), Extract(c, place)) == Some(state)
      ensures state.calls[c].item == Some(t) && multiset(old(items)) == multiset(items) + multiset{t}
      ensures forall x :: x in items ==> !discipline.less(t, x)
      ensures putPermits == old(putPermits) && takePermits == old(takePermits)
    {
      GrantedTakeFindsItem(discipline, state, c);
      var top := Top(items, discipline.less);
      place := top;
      ChosenIsMaximal(discipline, state.inserted, state.queue, top);
      ExtractEffect(discipline, state, c, top);
      hide Step, Inv, ItemsAt, Chosen;
      state := Step(discipline, state, Extract(c, top)).value;
      t := items[top];
      Removed(items, top);
      items := items[..top] + items[top + 1..];
    }

    /** The release of the other semaphore, with which the call returns */
    method Release(ghost c: nat, isPut: bool)
      requires Valid() && c < |state.calls| && state.calls[c].at == Moved && state.calls[c].isPut == isPut
      modifies this
      ensures Valid() && Step(discipline, old(state), Event.Release(c)) == Some(state)
      ensures putPermits == old(putPermits) + One(!isPut) && takePermits == old(takePermits) + One(isPut)
      ensures items == old(items)
    {
      hide Count;
      PermitStepKeepsInv(discipline, state, Event.Release(c));
      state := Step(discipline, state, Event.Release(c)).value;
      if isPut {
        takePermits := takePermits + 1;
      } else {
        putPermits := putPermits + 1;
      }
    }
  }

  lemma Removed<T>(items: seq<T>, place: nat)
    requires place < |items|
    ensures multiset(items) == multiset(items[..place] + items[place + 1..]) + multiset{items[place]}
    ensures forall x :: x in items[..place] + items[place + 1..] ==> x in items
  {
    assert items == items[..place] + [items[place]] + items[place + 1..];
  }

  lemma ChosenIsMaximal<T>(d: Discipline<T>, inserted: seq<T>, queue: seq<nat>, place: nat)
    requires d.Priority? && Places(inserted, queue) && place < |queue|
    requires var items := ItemsAt(inserted, queue); forall j :: 0 <= j < |items| ==> !d.less(items[place], items[j])
    ensures Chosen(d, inserted, queue, place)
  {
    var items := ItemsAt(inserted, queue);
    forall j | 0 <= j < |queue| ensures !d.less(inserted[queue[place]], inserted[queue[j]]) {
      assert items[j] == inserted[queue[j]];
    }
  }

  /** A place of a greatest item */
  method Top<T(!new)>(items: seq<T>, less: (T, T) -> bool) returns (place: nat)
    requires items != [] && StrictOrder(less)
    ensures place < |items| && forall j :: 0 <= j < |items| ==> !less(items[place], items[j])
  {
    place := 0;
    for i := 1 to |items|
      invariant place < i && forall j :: 0 <= j < i ==> !less(items[place], items[j])
    {
      if less(items[place], items[i]) {
        place := i;
      }
    }
  }
}
