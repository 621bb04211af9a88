/** DAF::Semaphore, the waiter-preference semaphore, and the waiter count of the condition it waits on.

    Every call of acquire is one entry of `State.calls`; a step is one section under the semaphore's lock, or what the
    condition variable does between two sections (notifying a waiter, a timeout, a spurious wake-up).  A call that has
    been notified is still counted as a waiter until it holds the lock again. */
module Semaphore {
  import opened Counting
  import opened Options

  /** Before the lock; in the condition's queue; out of the queue with (Notified) or without (Expired) a notification
      but not yet holding the lock; and the three outcomes. */
  datatype At = Entering | Queued | Notified | Expired | Acquired | Failed | Threw

  datatype State = State(seed: int, permits: int, calls: seq<At>, released: nat, interrupted: bool)

  datatype Event =
    | Start
    | Lock(c: nat)                            // a call enters: take a permit, or wait
    | Resume(c: nat)                          // a call that left the queue holds the lock again
    | Expire(c: nat)                          // a wait times out
    | Spurious(c: nat)                        // a wait ends without cause
    | Release(woken: seq<Option<nat>>)        // one entry for each permit released: the call that signal wakes
    | Throw(c: nat)                           // a call that enters finds the semaphore interrupted
    | Interrupt

  predicate IsQueued(at: At) { at == Queued }
  predicate IsReady(at: At) { at == Notified || at == Expired }
  predicate IsWaiter(at: At) { IsQueued(at) || IsReady(at) }
  predicate HasAcquired(at: At) { at == Acquired }

  function Waiters(s: State): nat { Count(s.calls, IsWaiter) }

  function Init(seed: int): State { State(seed, seed, [], 0, false) }

  function SetAt(s: State, c: nat, at: At): State
    requires c < |s.calls|
  {
    s.(calls := s.calls[c := at])
  }

  /** The call c takes a permit. */
  function Grant(s: State, c: nat): State
    requires c < |s.calls|
  {
    SetAt(s, c, Acquired).(permits := s.permits - 1)
  }

  function LockStep(s: State, c: nat): Option<State> {
    if c >= |s.calls| || s.calls[c] != Entering then None
    else if s.permits > Waiters(s) then Some(Grant(s, c))
    else if s.interrupted then Some(SetAt(s, c, Threw))
    else Some(SetAt(s, c, Queued))
  }

  function ResumeStep(s: State, c: nat): Option<State> {
    if c >= |s.calls| || !IsReady(s.calls[c]) then None
    else if s.interrupted then Some(SetAt(s, c, Threw))
    else if s.permits > 0 then Some(Grant(s, c))
    else Some(SetAt(s, c, if s.calls[c] == Expired then Failed else Entering))
  }

  /** The condition variable lets the waiting call c go. */
  function LeaveQueue(s: State, c: nat, at: At): Option<State> {
    if c < |s.calls| && s.calls[c] == Queued then Some(SetAt(s, c, at)) else None
  }

  /** ++permits_ and signal: one queued call is notified, if there is any. */
  function ReleaseOne(s: State, woken: Option<nat>): Option<State> {
    var t := s.(permits := s.permits + 1, released := s.released + 1);
    match woken
    case None => if Count(s.calls, IsQueued) == 0 then Some(t) else None
    case Some(c) => if c < |s.calls| && s.calls[c] == Queued then Some(SetAt(t, c, Notified)) else None
  }

  function ReleaseAll(s: State, woken: seq<Option<nat>>): (r: Option<State>)
    ensures r.Some? ==> r.value.seed == s.seed && r.value.released == s.released + |woken|
    decreases |woken|
  {
    if woken == [] then Some(s)
    else
      match ReleaseOne(s, woken[0])
      case None => None
      case Some(t) => ReleaseAll(t, woken[1..])
  }

  function Step(s: State, e: Event): Option<State> {
    match e
    case Start => Some(s.(calls := s.calls + [Entering]))
    case Lock(c) => LockStep(s, c)
    case Resume(c) => ResumeStep(s, c)
    case Expire(c) => LeaveQueue(s, c, Expired)
    case Spurious(c) => LeaveQueue(s, c, Notified)
    case Throw(c) =>
      if c < |s.calls| && s.calls[c] == Entering && s.interrupted then Some(SetAt(s, c, Threw)) else None
    case Release(woken) => ReleaseAll(s, woken)
    case Interrupt => Some(s.(interrupted := true))
  }

  /** Permits are conserved; and while some call sits in the queue unnotified, every permit there is has been spoken
      for by a call that has left the queue. */
  ghost predicate Inv(s: State) {
    && s.permits == s.seed + s.released - Count(s.calls, HasAcquired)
    && (s.permits >= 0 || s.permits >= s.seed)
    && (!s.interrupted && Count(s.calls, IsQueued) > 0 ==> s.permits <= Count(s.calls, IsReady))
  }

  /** How the counts move when call c moves. */
  lemma CountsOfUpdate(s: State, c: nat, at: At)
    requires c < |s.calls|
    ensures var calls := s.calls[c := at];
            && Count(calls, IsQueued) == Count(s.calls, IsQueued) - One(IsQueued(s.calls[c])) + One(IsQueued(at))
            && Count(calls, IsReady) == Count(s.calls, IsReady) - One(IsReady(s.calls[c])) + One(IsReady(at))
            && Count(calls, HasAcquired) == Count(s.calls, HasAcquired) - One(HasAcquired(s.calls[c])) + One(HasAcquired(at))
  {
    CountUpdate(s.calls, c, at, IsQueued);
    CountUpdate(s.calls, c, at, IsReady);
    CountUpdate(s.calls, c, at, HasAcquired);
  }

  lemma {:induction false} WaitersSplit(calls: seq<At>)
    ensures Count(calls, IsWaiter) == Count(calls, IsQueued) + Count(calls, IsReady)
  {
    if calls != [] { WaitersSplit(calls[..|calls| - 1]); }
  }

  lemma ReleaseOneKeepsInv(s: State, woken: Option<nat>)
    requires Inv(s) && ReleaseOne(s, woken).Some?
    ensures Inv(ReleaseOne(s, woken).value)
  {
    if woken.Some? { CountsOfUpdate(s, woken.value, Notified); }
  }

  lemma {:induction false} ReleaseAllKeepsInv(s: State, woken: seq<Option<nat>>)
    requires Inv(s) && ReleaseAll(s, woken).Some?
    ensures Inv(ReleaseAll(s, woken).value)
    decreases |woken|
  {
    if woken != [] {
      ReleaseOneKeepsInv(s, woken[0]);
      ReleaseAllKeepsInv(ReleaseOne(s, woken[0]).value, woken[1..]);
    }
  }

  lemma LockKeepsInv(s: State, c: nat)
    requires Inv(s) && LockStep(s, c).Some?
    ensures Inv(LockStep(s, c).value)
  {
    WaitersSplit(s.calls);
    CountsOfUpdate(s, c, LockStep(s, c).value.calls[c]);
  }

  lemma ResumeKeepsInv(s: State, c: nat)
    requires Inv(s) && ResumeStep(s, c).Some?
    ensures Inv(ResumeStep(s, c).value)
  {
    CountsOfUpdate(s, c, ResumeStep(s, c).value.calls[c]);
  }

  lemma LeaveKeepsInv(s: State, c: nat, at: At)
    requires Inv(s) && LeaveQueue(s, c, at).Some? && IsReady(at)
    ensures Inv(LeaveQueue(s, c, at).value)
  {
    CountsOfUpdate(s, c, at);
  }

  lemma StepKeepsInv(s: State, e: Event)
    requires Inv(s) && Step(s, e).Some?
    ensures Inv(Step(s, e).value)
  {
    match e
    case Start =>
      CountAppend(s.calls, Entering, IsQueued);
      CountAppend(s.calls, Entering, IsReady);
      CountAppend(s.calls, Entering, HasAcquired);
    case Lock(c) => LockKeepsInv(s, c);
    case Resume(c) => ResumeKeepsInv(s, c);
    case Expire(c) => LeaveKeepsInv(s, c, Expired);
    case Spurious(c) => LeaveKeepsInv(s, c, Notified);
    case Throw(c) => CountsOfUpdate(s, c, Threw);
    case Release(woken) => ReleaseAllKeepsInv(s, woken);
    case Interrupt =>
  }

  /** The state after a run, or None when some event could not happen where it stands. */
  function Run(seed: int, es: seq<Event>): Option<State> {
    if es == [] then Some(Init(seed))
    else
      match Run(seed, es[..|es| - 1])
      case None => None
      case Some(s) => Step(s, es[|es| - 1])
  }

  lemma {:induction false} RunKeepsInv(seed: int, es: seq<Event>)
    requires Run(seed, es).Some?
    ensures Inv(Run(seed, es).value) && Run(seed, es).value.seed == seed
  {
    if es != [] {
      RunKeepsInv(seed, es[..|es| - 1]);
      StepKeepsInv(Run(seed, es[..|es| - 1]).value, es[|es| - 1]);
    }
  }

  // ----- over every run

  /** No permit appears or disappears. */
  lemma PermitsAreConserved(seed: int, es: seq<Event>)
    requires Run(seed, es).Some?
    ensures var s := Run(seed, es).value; s.permits + Count(s.calls, HasAcquired) == seed + s.released
    ensures seed >= 0 ==> Run(seed, es).value.permits >= 0
  {
    RunKeepsInv(seed, es);
  }

  /** No wake-up is lost: while a call waits unnotified, no permit is free beyond those already promised to calls on
      their way out of the queue, so when none is on its way out there is no permit at all. */
  lemma NoStrandedPermit(seed: int, es: seq<Event>, c: nat)
    requires Run(seed, es).Some? && !Run(seed, es).value.interrupted
    requires var s := Run(seed, es).value; c < |s.calls| && s.calls[c] == Queued
    ensures var s := Run(seed, es).value; s.permits <= Count(s.calls, IsReady)
    ensures var s := Run(seed, es).value;
            (forall d :: 0 <= d < |s.calls| ==> !IsReady(s.calls[d])) ==> s.permits <= 0
  {
    RunKeepsInv(seed, es);
    var s := Run(seed, es).value;
    CountPositive(s.calls, c, IsQueued);
    if Count(s.calls, IsReady) > 0 {
      var d := CountWitness(s.calls, IsReady);
    }
  }

  /** No overtaking: a call that gets a permit on entering leaves one for every waiter, and no waiter is unnotified. */
  lemma NoOvertaking(seed: int, es: seq<Event>, c: nat, d: nat)
    requires Run(seed, es).Some? && !Run(seed, es).value.interrupted
    requires LockStep(Run(seed, es).value, c).Some? && LockStep(Run(seed, es).value, c).value.calls[c] == Acquired
    ensures var t := LockStep(Run(seed, es).value, c).value;
            t.permits >= Waiters(t) && (d < |t.calls| ==> t.calls[d] != Queued)
  {
    RunKeepsInv(seed, es);
    var s := Run(seed, es).value;
    WaitersSplit(s.calls);
    CountUpdate(s.calls, c, Acquired, IsWaiter);
    if d < |s.calls| && s.calls[d] == Queued {
      CountPositive(s.calls, d, IsQueued);
    }
  }

  /** What the documentation rules out happens in a reachable state, to a call that enters, if and only if somebody
      waits and there are more permits than calls waiting. */
  lemma NewcomerPassesWaitersIff(seed: int, es: seq<Event>, c: nat)
    requires Run(seed, es).Some?
    requires var s := Run(seed, es).value; c < |s.calls| && s.calls[c] == Entering
    ensures var s := Run(seed, es).value;
            var t := LockStep(s, c).value;
            t.calls[c] == Acquired && Waiters(t) > 0 <==> 0 < Waiters(s) < s.permits
  {
    CountUpdate(Run(seed, es).value.calls, c, Acquired, IsWaiter);
  }

  /** How the first section of acquire ends: with a permit exactly if there are more permits than waiters, whoever waits
      or does not; otherwise the call queues up, or throws if the semaphore is interrupted.  It never fails here. */
  lemma EntryOutcome(seed: int, es: seq<Event>, c: nat)
    requires Run(seed, es).Some?
    requires var s := Run(seed, es).value; c < |s.calls| && s.calls[c] == Entering
    ensures var s := Run(seed, es).value;
            Step(s, Lock(c)).Some? &&
            var t := Step(s, Lock(c)).value;
            && |t.calls| == |s.calls| && (forall d :: 0 <= d < |s.calls| && d != c ==> t.calls[d] == s.calls[d])
            && (t.calls[c] == Acquired <==> s.permits > Waiters(s))
            && (t.calls[c] == Queued <==> s.permits <= Waiters(s) && !s.interrupted)
            && (t.calls[c] == Threw <==> s.permits <= Waiters(s) && s.interrupted)
            && t.permits == s.permits - One(t.calls[c] == Acquired)
            && t.released == s.released && t.interrupted == s.interrupted
  {
    hide Waiters;
  }

  /** How the section after a wait ends, with a notification or a timeout: an interrupt is an exception, a permit that
      is there is taken whatever ended the wait, and without one the timeout fails and the notified call starts again.
      */
  lemma WaitOutcome(seed: int, es: seq<Event>, c: nat)
    requires Run(seed, es).Some?
    requires var s := Run(seed, es).value; c < |s.calls| && s.calls[c] in {Notified, Expired}
    ensures var s := Run(seed, es).value;
            Step(s, Resume(c)).Some? &&
            var t := Step(s, Resume(c)).value;
            && |t.calls| == |s.calls| && (forall d :: 0 <= d < |s.calls| && d != c ==> t.calls[d] == s.calls[d])
            && (t.calls[c] == Threw <==> s.interrupted)
            && (t.calls[c] == Acquired <==> !s.interrupted && s.permits > 0)
            && (t.calls[c] == Failed <==> !s.interrupted && s.permits <= 0 && s.calls[c] == Expired)
            && (t.calls[c] == Entering <==> !s.interrupted && s.permits <= 0 && s.calls[c] == Notified)
            && t.permits == s.permits - One(t.calls[c] == Acquired)
            && t.released == s.released && t.interrupted == s.interrupted
  {
    hide Run;
  }

  /** A call begins at the lock; what lets it out of the queue moves nothing else; an interrupt stays and ends every
      entering call. */
  lemma QueueOutcome(s: State, c: nat)
    requires c < |s.calls|
    ensures Step(s, Start) == Some(s.(calls := s.calls + [Entering]))
    ensures Step(s, Expire(c)) == if s.calls[c] == Queued then Some(s.(calls := s.calls[c := Expired])) else None
    ensures Step(s, Spurious(c)) == if s.calls[c] == Queued then Some(s.(calls := s.calls[c := Notified])) else None
    ensures s.calls[c] == Entering ==>
              Step(s, Throw(c)) == if s.interrupted then Some(s.(calls := s.calls[c := Threw])) else None
    ensures Step(s, Interrupt).Some? && Step(s, Interrupt).value.interrupted
    ensures Step(s, Interrupt).value.(interrupted := s.interrupted) == s
  {
  }

  lemma RunStep(seed: int, es: seq<Event>, e: Event, s: State, t: State)
    requires Run(seed, es) == Some(s) && Step(s, e) == Some(t)
    ensures Run(seed, es + [e]) == Some(t)
  {
    assert (es + [e])[..|es + [e]| - 1] == es;
  }

  /** One call has waited for a permit, and two permits have been released, one of them to it. */
  lemma NotifiedIsReached() returns (es: seq<Event>)
    ensures Run(0, es) == Some(State(0, 2, [Notified], 2, false))
  {
    var s1, s2 := State(0, 0, [Entering], 0, false), State(0, 0, [Queued], 0, false);
    var s3 := State(0, 2, [Notified], 2, false);
    var two: seq<Option<nat>> := [Some(0), None];
    var none: seq<Event> := [];
    assert Init(0).calls + [Entering] == s1.calls;
    RunStep(0, none, Start, Init(0), s1);
    assert LockStep(s1, 0) == Some(s2) by { assert s1.calls[0 := Queued] == s2.calls; }
    RunStep(0, none + [Start], Lock(0), s1, s2);
    assert ReleaseAll(s2, two) == Some(s3) by {
      assert s2.calls[0 := Notified] == s3.calls;
      assert ReleaseOne(s2, Some(0)) == Some(State(0, 1, [Notified], 1, false));
      assert two[1..] == [None] && two[1..][1..] == [];
    }
    RunStep(0, none + [Start] + [Lock(0)], Release(two), s2, s3);
    es := none + [Start] + [Lock(0)] + [Release(two)];
  }

  /** What the class documentation adds is not so: an entering call may get a permit while another is still waiting,
      provided that one has been notified and has a permit of its own. */
  lemma NewcomerMayPassNotified() returns (es: seq<Event>)
    ensures Run(0, es).Some? && LockStep(Run(0, es).value, 1).Some?
    ensures var t := LockStep(Run(0, es).value, 1).value; t.calls[1] == Acquired && Waiters(t) > 0
  {
    var s := State(0, 2, [Notified, Entering], 2, false);
    es := NotifiedIsReached();
    assert [Notified] + [Entering] == s.calls;
    RunStep(0, es, Start, State(0, 2, [Notified], 2, false), s);
    es := es + [Start];
    CountAppend([Notified], Entering, IsWaiter);
    CountUpdate(s.calls, 1, Acquired, IsWaiter);
  }

  // ----- the class

  lemma {:induction false} ReleaseAllOneMore(s: State, woken: seq<Option<nat>>, last: Option<nat>)
    requires ReleaseAll(s, woken).Some?
    ensures ReleaseAll(s, woken + [last]) == ReleaseOne(ReleaseAll(s, woken).value, last)
    decreases |woken|
  {
    if woken == [] {
      assert ([] + [last])[1..] == [];
    } else {
      assert (woken + [last])[1..] == woken[1..] + [last];
      ReleaseAllOneMore(ReleaseOne(s, woken[0]).value, woken[1..], last);
    }
  }

  class Semaphore {
    var permits: int
    var waiters: nat  // the count kept by the condition
    var interrupted: bool
    ghost var seed: int
    ghost var calls: seq<At>
    ghost var released: nat

    ghost function Abs(): State
      reads this
    {
      State(seed, permits, calls, released, interrupted)
    }

    /** The condition's own counter agrees with the calls that wait. */
    ghost predicate Valid()
      reads this
    {
      waiters == Waiters(Abs())
    }

    constructor (seed: int)
      ensures Valid() && Abs() == Init(seed)
    {
      permits, waiters, interrupted := seed, 0, false;
      this.seed, calls, released := seed, [], 0;
    }

    /** The first section of acquire, up to the permit, the wait or the exception. */
    method Lock(ghost c: nat) returns (granted: bool)
      requires Valid() && c < |calls| && calls[c] == Entering
      modifies this
      ensures Valid() && Step(old(Abs()), Event.Lock(c)) == Some(Abs())
      ensures granted <==> old(permits) > old(waiters)
      ensures permits == old(permits) - One(granted) && waiters == old(waiters) + One(!granted && !interrupted)
      ensures calls == old(calls)[c := if granted then Acquired else if interrupted then Threw else Queued]
    {
      hide Count;
      CountUpdate(calls, c, Acquired, IsWaiter);
      CountUpdate(calls, c, Queued, IsWaiter);
      CountUpdate(calls, c, Threw, IsWaiter);
      granted := permits > waiters;
      if granted {
        permits, calls := permits - 1, calls[c := Acquired];
      } else if interrupted {
        calls := calls[c := Threw];
      } else {
        waiters, calls := waiters + 1, calls[c := Queued];
      }
    }

    /** The section of acquire after the wait, which has ended with a timeout or not. */
    method Resume(ghost c: nat, timedOut: bool) returns (granted: bool)
      requires Valid() && c < |calls| && calls[c] == (if timedOut then Expired else Notified)
      modifies this
      ensures Valid() && Step(old(Abs()), Event.Resume(c)) == Some(Abs())
      ensures granted <==> !interrupted && old(permits) > 0
      ensures permits == old(permits) - One(granted) && waiters == old(waiters) - 1
      ensures calls == old(calls)[
        c := if granted then Acquired else if interrupted then Threw else if timedOut then Failed else Entering]
    {
      hide Count;
      CountPositive(calls, c, IsWaiter);
      waiters := waiters - 1;
      granted := !interrupted && permits > 0;
      ghost var at: At;
      if interrupted {
        at := Threw;
      } else if permits > 0 {
        permits, at := permits - 1, Acquired;
      } else {
        at := if timedOut then Failed else Entering;
      }
      CountUpdate(calls, c, at, IsWaiter);
      calls := calls[c := at];
    }

    /** The condition variable notifies one of the calls in its queue, whichever, if there is one. */
    ghost method Signal() returns (woken: Option<nat>)
      requires Valid()
      modifies this`calls
      ensures Valid()
      ensures match woken
              case None => Count(calls, IsQueued) == 0 && calls == old(calls)
              case Some(c) => c < |old(calls)| && old(calls)[c] == Queued && calls == old(calls)[c := Notified]
    {
      if Count(calls, IsQueued) == 0 {
        woken := None;
      } else {
        var c := CountWitness(calls, IsQueued);
        CountUpdate(calls, c, Notified, IsWaiter);
        woken, calls := Some(c), calls[c := Notified];
      }
    }

    /** Every permit is added under one hold of the lock, each with its own signal. */
    method Release(permitCount: int) returns (ghost woken: seq<Option<nat>>)
      requires Valid()
      modifies this
      ensures Valid()
      ensures |woken| == (if permitCount > 0 then permitCount else 0)
      ensures Step(old(Abs()), Event.Release(woken)) == Some(Abs())
      ensures permits == old(permits) + |woken| && released == old(released) + |woken| && waiters == old(waiters)
    {
      hide Count;
      woken := [];
      var left := permitCount;
      while left > 0
        invariant |woken| == (if permitCount > 0 then permitCount else 0) - (if left > 0 then left else 0)
        invariant Valid() && ReleaseAll(old(Abs()), woken) == Some(Abs())
        invariant permits == old(permits) + |woken| && released == old(released) + |woken| && waiters == old(waiters)
      {
        left := left - 1;
        permits, released := permits + 1, released + 1;
        ghost var one := Signal();
        ReleaseAllOneMore(old(Abs()), woken, one);
        woken := woken + [one];
      }
    }
  }
}
