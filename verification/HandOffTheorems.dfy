/** What the hand-off protocol promises, and where it does not keep the promise. */
module HandOffTheorems {
  import opened HandOff
  import opened HandOffInvariant
  import opened Options

  // ----- exactly-once hand-off, over every run

  predicate PutReturned<T>(s: State<T>, p: nat) { p < |s.calls| && s.calls[p].isPut && s.calls[p].at == Returned }

  predicate TakeReturned<T>(s: State<T>, k: nat) { k < |s.calls| && !s.calls[k].isPut && s.calls[k].at == Returned }

  /** Take k has returned the item presented by put p. */
  ghost predicate TakenBy<T>(s: State<T>, p: nat, k: nat) {
    TakeReturned(s, k) && p < |s.calls| && s.calls[p].isPut && s.calls[k].item == s.calls[p].item
  }

  predicate Finished<T>(call: Call<T>) { call.at in {Returned, TimedOut, Threw} }

  /** With or without interrupts: what a take returns was presented by a put, no two takes return the item of the same
      put, and that put has not failed with a timeout. */
  lemma AtMostOnce<T>(es: seq<Event<T>>, k: nat)
    requires Run(es).Some? && TakeReturned(Run(es).value, k)
    ensures var s := Run(es).value;
            exists p: nat ::
              && TakenBy(s, p, k)
              && (forall l :: TakenBy(s, p, l) ==> l == k)
              && s.calls[p].at in (if s.interrupted then {Waiting, Returned, Threw} else {Waiting, Returned})
  {
    RunKeepsInv(es);
    var s := Run(es).value;
    assert CallOk(s, k);
    var p := s.calls[k].item.value.put;
    assert CallOk(s, p);
    assert TakenBy(s, p, k);
    forall l | TakenBy(s, p, l) ensures l == k { assert CallOk(s, l); }
  }

  /** A put that returns -1 is never taken. */
  lemma FailedPutIsNotTaken<T>(es: seq<Event<T>>, p: nat, k: nat)
    requires Run(es).Some?
    requires var s := Run(es).value; p < |s.calls| && s.calls[p].isPut && s.calls[p].at == TimedOut
    ensures !TakenBy(Run(es).value, p, k)
  {
    RunKeepsInv(es);
    var s := Run(es).value;
    assert CallOk(s, p);
    if k < |s.calls| { assert CallOk(s, k); }
  }

  /** A take that times out, or ends with an exception, has consumed nothing. */
  lemma FailedTakeConsumesNothing<T>(es: seq<Event<T>>, k: nat, p: nat)
    requires Run(es).Some?
    requires var s := Run(es).value; k < |s.calls| && !s.calls[k].isPut && s.calls[k].at in {TimedOut, Threw}
    ensures var s := Run(es).value; p in s.delivered ==> s.delivered[p] != k
  {
    RunKeepsInv(es);
  }

  /** Without an interrupt, the item of a put that returned 0 has been returned by a take, or lies in the node of a take
      that is still waiting for it: no timeout can have consumed it. */
  lemma ReturnedPutIsNotLost<T>(es: seq<Event<T>>, p: nat)
    requires Run(es).Some? && PutReturned(Run(es).value, p) && !Run(es).value.interrupted
    ensures var s := Run(es).value;
            || (p in s.delivered && TakenBy(s, p, s.delivered[p]))
            || (exists k: nat ::
                  && k < |s.calls| && !s.calls[k].isPut && s.calls[k].at == Waiting && s.calls[k].node < |s.nodes|
                  && s.nodes[s.calls[k].node].slot == s.calls[p].item)
  {
    RunKeepsInv(es);
    var s := Run(es).value;
    assert CallOk(s, p);
    if p in s.delivered {
      assert CallOk(s, s.delivered[p]);
    } else {
      var n := s.calls[p].node;
      assert NodeOk(s, n);
      assert s.calls[s.nodes[n].owner].node == n;
    }
  }

  /** At quiescence without an interrupt, `delivered` is a bijection from the puts that returned 0 onto the takes that
      returned, and both sides hold the same item. */
  lemma QuiescentBijection<T>(es: seq<Event<T>>)
    requires Run(es).Some? && !Run(es).value.interrupted
    requires forall c :: 0 <= c < |Run(es).value.calls| ==> Finished(Run(es).value.calls[c])
    ensures var s := Run(es).value;
            && (forall p: nat :: p in s.delivered <==> PutReturned(s, p))
            && (forall p: nat :: p in s.delivered ==> TakenBy(s, p, s.delivered[p]))
            && (forall k: nat :: TakeReturned(s, k) ==> exists p :: p in s.delivered && s.delivered[p] == k)
            && (forall p, q :: p in s.delivered && q in s.delivered && s.delivered[p] == s.delivered[q] ==> p == q)
  {
    RunKeepsInv(es);
    var s := Run(es).value;
    forall p: nat | PutReturned(s, p) ensures p in s.delivered {
      ReturnedPutIsNotLost(es, p);
    }
    forall p: nat | p in s.delivered ensures PutReturned(s, p) && TakenBy(s, p, s.delivered[p]) {
      assert CallOk(s, s.delivered[p]) && CallOk(s, p);
    }
    forall k: nat | TakeReturned(s, k) ensures exists p :: p in s.delivered && s.delivered[p] == k {
      assert CallOk(s, k);
      assert s.calls[k].item.value.put in s.delivered;
    }
  }

  // ----- the queues

  /** Puts and takes never queue up at the same time. */
  lemma OneQueueIsEmpty<T>(es: seq<Event<T>>)
    requires Run(es).Some?
    ensures Run(es).value.producers == [] || Run(es).value.consumers == []
  {
    RunKeepsInv(es);
  }

  /** A node still waiting to be met. */
  predicate Unresolved<T>(s: State<T>, n: nat) {
    && n < |s.nodes| && s.nodes[n].owner < |s.calls|
    && s.nodes[n].state == (if s.calls[s.nodes[n].owner].isPut then FULL else EMPTY)
    && s.calls[s.nodes[n].owner].at == Waiting && s.calls[s.nodes[n].owner].node == n
  }

  /** An unresolved node is in its queue, or exactly one call holds it. */
  lemma UnresolvedIsQueuedOrHeld<T>(es: seq<Event<T>>, n: nat)
    requires Run(es).Some? && Unresolved(Run(es).value, n)
    ensures var s := Run(es).value;
            var q := s.Opposite(!s.calls[s.nodes[n].owner].isPut);
            || n in q
            || (exists c ::
                  && 0 <= c < |s.calls| && s.calls[c].at == Holding && s.calls[c].node == n
                  && forall d :: 0 <= d < |s.calls| && s.calls[d].at == Holding && s.calls[d].node == n ==> d == c)
  {
    RunKeepsInv(es);
    var s := Run(es).value;
    assert NodeOk(s, n);
    if s.nodes[n].peer.Some? {
      var c := s.nodes[n].peer.value;
      assert s.calls[c].at == Holding && s.calls[c].node == n by { assert CallOk(s, s.nodes[n].owner); }
      forall d | 0 <= d < |s.calls| && s.calls[d].at == Holding && s.calls[d].node == n ensures d == c {
        assert CallOk(s, d);
      }
    }
  }

  /** When no call is holding a node, a put and a take never both wait unresolved: they cannot have missed each other.
      */
  lemma NoMissedMeeting<T>(es: seq<Event<T>>, n: nat, m: nat)
    requires Run(es).Some? && Unresolved(Run(es).value, n) && Unresolved(Run(es).value, m)
    requires forall c :: 0 <= c < |Run(es).value.calls| ==> Run(es).value.calls[c].at != Holding
    ensures var s := Run(es).value; s.calls[s.nodes[n].owner].isPut == s.calls[s.nodes[m].owner].isPut
  {
    hide CallOk, NodeOk, History, WellFormed, Run, QueueOk;
    RunKeepsInv(es);
    UnresolvedIsQueuedOrHeld(es, n);
    UnresolvedIsQueuedOrHeld(es, m);
  }

  /** CANCELLED is terminal. */
  lemma CancelledIsTerminal<T>(s: State<T>, e: Event<T>, n: nat)
    requires WellFormed(s) && Step(s, e).Some? && n < |s.nodes| && s.nodes[n].state == CANCELLED
    ensures var t := Step(s, e).value; n < |t.nodes| && t.nodes[n].state == CANCELLED
  {
    match e
    case Enter(c) => var k := SkipCancelledIsOldest(s.nodes, s.Opposite(s.calls[c].isPut));
    case _ =>
  }

  // ----- interrupts

  /** An interrupt reaches every call that has not ended: it can end with an exception at once, or, if its node has been
      cancelled under it, as soon as it has seen that. */
  lemma InterruptEndsEveryCall<T>(es: seq<Event<T>>, c: nat)
    requires Run(es).Some?
    requires var s := Run(es).value; s.interrupted && c < |s.calls| && !Finished(s.calls[c])
    ensures WellFormed(Run(es).value)
    ensures var s := Run(es).value;
            var r := Step(s, Throw(c));
            if s.calls[c].at == Waiting && s.nodes[s.calls[c].node].state == CANCELLED then
              && r == None && Step(s, Wake(c)).Some?
              && Step(s, Wake(c)).value.calls == s.calls[c := s.calls[c].(at := Entering)]
            else
              r.Some? && r.value.calls == s.calls[c := s.calls[c].(at := Threw)]
  {
    RunKeepsInv(es);
    InvIsWellFormed(Run(es).value);
    hide Inv;
  }

  // ----- the one way to lose an item

  /** Put p has returned 0, but no take has got its item and no node holds it any more. */
  ghost predicate Lost<T>(s: State<T>, p: nat) {
    && PutReturned(s, p) && p !in s.delivered
    && s.calls[p].node < |s.nodes| && s.nodes[s.calls[p].node].slot != s.calls[p].item
  }

  /** The channel interrupt reaches the waiting take e.c after put p has filled its node. */
  ghost predicate OvertakenByInterrupt<T>(s: State<T>, e: Event<T>, p: nat) {
    && e.Throw? && e.c < |s.calls| && !s.calls[e.c].isPut && s.calls[e.c].at == Waiting
    && p < |s.calls| && s.calls[e.c].node < |s.nodes| && s.nodes[s.calls[e.c].node].slot == s.calls[p].item
  }

  lemma ActingLosesNothing<T>(s: State<T>, c: nat, at: At, p: nat)
    requires ActorOk(s, c) && ActorOk(s, p) && s.calls[p].isPut
    ensures MayFill(s, c) ==> (Lost(Fill(s, c), p) <==> Lost(s, p))
    ensures MayCollect(s, c) ==> (Lost(Collect(s, c), p) <==> Lost(s, p))
    ensures MayReturn(s, c, at) ==> (Lost(SetAt(s, c, at), p) <==> Lost(s, p))
  {
  }

  lemma CancelLosesFilledNode<T>(s: State<T>, c: nat, at: At, p: nat)
    requires ActorOk(s, c) && ActorOk(s, p) && s.calls[p].isPut && MayCancel(s, c, at)
    ensures Lost(Cancel(s, c, at), p) <==>
              || Lost(s, p)
              || (!s.calls[c].isPut && s.calls[c].at == Waiting && s.nodes[s.calls[c].node].slot == s.calls[p].item)
  {
  }

  lemma EnterLosesNothing<T>(s: State<T>, c: nat, p: nat)
    requires WellFormed(s) && EnterStep(s, c).Some? && ActorOk(s, p) && s.calls[p].isPut
    ensures Lost(EnterStep(s, c).value, p) <==> Lost(s, p)
  {
  }

  lemma MeetLosesNothing<T>(s: State<T>, c: nat, p: nat)
    requires Inv(s) && WellFormed(s) && MeetStep(s, c).Some? && ActorOk(s, p) && s.calls[p].isPut
    ensures Lost(MeetStep(s, c).value, p) <==> Lost(s, p)
  {
    ActorIsOk(s, c);
    ActingLosesNothing(s, c, Entering, p);
  }

  lemma WakeLosesNothing<T>(s: State<T>, c: nat, p: nat)
    requires Inv(s) && WellFormed(s) && WakeStep(s, c).Some? && ActorOk(s, p) && s.calls[p].isPut
    ensures Lost(WakeStep(s, c).value, p) <==> Lost(s, p)
  {
    ActorIsOk(s, c);
    ActingLosesNothing(s, c, WakeStep(s, c).value.calls[c].at, p);
  }

  lemma TimeOutLosesNothing<T>(s: State<T>, c: nat, p: nat)
    requires Inv(s) && WellFormed(s) && TimeOutStep(s, c).Some? && ActorOk(s, p) && s.calls[p].isPut
    ensures Lost(TimeOutStep(s, c).value, p) <==> Lost(s, p)
  {
    ActorIsOk(s, c);
    CancelLosesFilledNode(s, c, TimeOutStep(s, c).value.calls[c].at, p);
  }

  lemma ThrowLosesFilledNode<T>(s: State<T>, c: nat, p: nat)
    requires Inv(s) && WellFormed(s) && ThrowStep(s, c).Some? && ActorOk(s, p) && s.calls[p].isPut
    ensures Lost(ThrowStep(s, c).value, p) <==> Lost(s, p) || OvertakenByInterrupt(s, Throw(c), p)
  {
    ActorIsOk(s, c);
    if s.calls[c].at == Entering { ActingLosesNothing(s, c, Threw, p); } else { CancelLosesFilledNode(s, c, Threw, p); }
  }

  /** A step loses the item of put p if and only if it is an interrupted take abandoning its filled node; a lost item
      stays lost. */
  lemma LostOnlyByInterrupt<T>(s: State<T>, e: Event<T>, p: nat)
    requires Inv(s) && WellFormed(s) && Step(s, e).Some? && p < |s.calls| && s.calls[p].isPut
    ensures Lost(Step(s, e).value, p) <==> Lost(s, p) || OvertakenByInterrupt(s, e, p)
  {
    ActorIsOk(s, p);
    match e
    case StartPut(_) =>
    case StartTake =>
    case Interrupt =>
    case Enter(c) => EnterLosesNothing(s, c, p);
    case Meet(c) => MeetLosesNothing(s, c, p);
    case Wake(c) => WakeLosesNothing(s, c, p);
    case TimeOut(c) => TimeOutLosesNothing(s, c, p);
    case Throw(c) => ThrowLosesFilledNode(s, c, p);
  }

  lemma RunNothing<T>()
    ensures Run<T>([]) == Some(Init())
  {
  }

  lemma RunStep<T>(es: seq<Event<T>>, e: Event<T>, s: State<T>, t: State<T>)
    requires Run(es) == Some(s) && WellFormed(s) && Step(s, e) == Some(t)
    ensures Run(es + [e]) == Some(t)
  {
    assert (es + [e])[..|es + [e]| - 1] == es;
  }

  /** The state in which take 0 waits and put 1, not yet past the channel lock, presents 7. */
  function TakeWaits(): State<int> {
    State([Node(None, EMPTY, 0, None)], [], [0],
          [Call(false, Waiting, 0, None), Call(true, Entering, 0, Some(Item(7, 1)))], map[], false)
  }

  lemma TakeWaitsIsReached() returns (es: seq<Event<int>>)
    ensures Run(es) == Some(TakeWaits())
  {
    hide Run;
    var s1: State<int> := State([], [], [], [Call(false, Entering, 0, None)], map[], false);
    var s2: State<int> := State([Node(None, EMPTY, 0, None)], [], [0], [Call(false, Waiting, 0, None)], map[], false);
    var none: seq<Event<int>> := [];
    assert Init<int>().calls + [Call(false, Entering, 0, None)] == s1.calls;
    RunNothing<int>();
    RunStep(none, StartTake, Init(), s1);
    assert EnterStep(s1, 0) == Some(s2) by {
      assert s1.calls[0 := Call(false, Waiting, 0, None)] == s2.calls;
      assert s1.nodes + [Node(None, EMPTY, 0, None)] == s2.nodes && s1.consumers + [0] == s2.consumers;
    }
    RunStep(none + [StartTake], Enter(0), s1, s2);
    assert s2.calls + [Call(true, Entering, 0, Some(Item(7, 1)))] == TakeWaits().calls;
    RunStep(none + [StartTake] + [Enter(0)], StartPut(7), s2, TakeWaits());
    es := none + [StartTake] + [Enter(0)] + [StartPut(7)];
  }

  /** The state in which put 1 has filled the node of take 0 and returned. */
  function TakeFilled(): State<int> {
    State([Node(Some(Item(7, 1)), FULL, 0, Some(1))], [], [],
          [Call(false, Waiting, 0, None), Call(true, Returned, 0, Some(Item(7, 1)))], map[], false)
  }

  lemma TakeFilledIsReached() returns (es: seq<Event<int>>)
    ensures Run(es) == Some(TakeFilled())
  {
    hide Run;
    var s, t, item := TakeWaits(), TakeFilled(), Some(Item(7, 1));
    var u: State<int> := State([Node(None, EMPTY, 0, Some(1))], [], [],
                               [Call(false, Waiting, 0, None), Call(true, Holding, 0, item)], map[], false);
    es := TakeWaitsIsReached();
    assert EnterStep(s, 1) == Some(u) by {
      assert SkipCancelled(s.nodes, s.consumers) == [0] && [0][1..] == [];
      assert s.calls[1 := Call(true, Holding, 0, item)] == u.calls;
      assert s.nodes[0 := Node(None, EMPTY, 0, Some(1))] == u.nodes;
    }
    RunStep(es, Enter(1), s, u);
    assert MeetStep(u, 1) == Some(t) by {
      assert u.calls[1 := t.calls[1]] == t.calls && u.nodes[0 := t.nodes[0]] == t.nodes;
    }
    RunStep(es + [Enter(1)], Meet(1), u, t);
    es := es + [Enter(1)] + [Meet(1)];
  }

  /** The loss happens: a put returns 0, its item reaches no take, and both calls have ended. */
  lemma InterruptLosesAnItem() returns (es: seq<Event<int>>)
    ensures Run(es).Some? && Lost(Run(es).value, 1)
    ensures forall c :: 0 <= c < |Run(es).value.calls| ==> Finished(Run(es).value.calls[c])
  {
    hide Run;
    var s := TakeFilled().(interrupted := true);
    var t: State<int> := State([Node(None, CANCELLED, 0, Some(1))], [], [],
                               [Call(false, Threw, 0, None), s.calls[1]], map[], true);
    es := TakeFilledIsReached();
    RunStep(es, Interrupt, TakeFilled(), s);
    assert ThrowStep(s, 0) == Some(t) by {
      assert s.calls[0 := t.calls[0]] == t.calls && s.nodes[0 := t.nodes[0]] == t.nodes;
    }
    RunStep(es + [Interrupt], Throw(0), s, t);
    es := es + [Interrupt] + [Throw(0)];
  }

  // ----- the one way to fail although the item is taken

  /** Put p has ended with an exception, and its item has been delivered. */
  predicate ThrewThoughTaken<T>(s: State<T>, p: nat) {
    p < |s.calls| && s.calls[p].isPut && s.calls[p].at == Threw && p in s.delivered
  }

  /** A put that finds its node emptied by a take and gives up all the same, because of an interrupt. */
  ghost predicate ThrowsOnEmptied<T>(s: State<T>, e: Event<T>, p: nat)
    requires WellFormed(s) && p < |s.calls|
  {
    e == Throw(p) && s.calls[p].at == Waiting && s.nodes[s.calls[p].node].state == EMPTY
  }

  /** What the history says is delivered, some take has returned, and only that. */
  lemma DeliveredIsTaken<T>(es: seq<Event<T>>, p: nat)
    requires Run(es).Some?
    requires var s := Run(es).value; p < |s.calls| && s.calls[p].isPut
    ensures var s := Run(es).value; p in s.delivered <==> exists k: nat :: TakenBy(s, p, k)
  {
    RunKeepsInv(es);
    var s := Run(es).value;
    assert CallOk(s, p);
    if p in s.delivered {
      assert CallOk(s, s.delivered[p]);
      assert TakenBy(s, p, s.delivered[p]);
    }
    forall k: nat | TakenBy(s, p, k) ensures p in s.delivered { assert CallOk(s, k); }
  }

  /** A put that failed, with -1 or an exception, was taken all the same if and only if it threw on an emptied node. */
  lemma FailedPutIsTakenIff<T>(es: seq<Event<T>>, p: nat)
    requires Run(es).Some?
    requires var s := Run(es).value; p < |s.calls| && s.calls[p].isPut && s.calls[p].at in {TimedOut, Threw}
    ensures var s := Run(es).value; (exists k: nat :: TakenBy(s, p, k)) <==> ThrewThoughTaken(s, p)
  {
    RunKeepsInv(es);
    assert CallOk(Run(es).value, p);
    DeliveredIsTaken(es, p);
  }

  lemma EnterIsNoFailure<T>(s: State<T>, c: nat, p: nat)
    requires WellFormed(s) && EnterStep(s, c).Some? && ActorOk(s, p) && s.calls[p].isPut
    ensures ThrewThoughTaken(EnterStep(s, c).value, p) <==> ThrewThoughTaken(s, p)
  {
    hide SkipCancelled;
  }

  lemma MeetIsNoFailure<T>(s: State<T>, c: nat, p: nat)
    requires WellFormed(s) && MeetStep(s, c).Some? && ActorOk(s, c) && ActorOk(s, p) && s.calls[p].isPut
    ensures ThrewThoughTaken(MeetStep(s, c).value, p) <==> ThrewThoughTaken(s, p)
  {
  }

  lemma WakeIsNoFailure<T>(s: State<T>, c: nat, p: nat)
    requires WellFormed(s) && WakeStep(s, c).Some? && ActorOk(s, c) && ActorOk(s, p) && s.calls[p].isPut
    ensures ThrewThoughTaken(WakeStep(s, c).value, p) <==> ThrewThoughTaken(s, p)
  {
  }

  lemma TimeOutIsNoFailure<T>(s: State<T>, c: nat, p: nat)
    requires WellFormed(s) && TimeOutStep(s, c).Some? && ActorOk(s, c) && ActorOk(s, p) && s.calls[p].isPut
    ensures ThrewThoughTaken(TimeOutStep(s, c).value, p) <==> ThrewThoughTaken(s, p)
  {
  }

  lemma ThrowFailsOnEmptied<T>(s: State<T>, c: nat, p: nat)
    requires WellFormed(s) && ThrowStep(s, c).Some? && ActorOk(s, c) && ActorOk(s, p) && s.calls[p].isPut
    ensures ThrewThoughTaken(ThrowStep(s, c).value, p) <==> ThrewThoughTaken(s, p) || ThrowsOnEmptied(s, Throw(c), p)
  {
  }

  /** A step makes put p such a failure if and only if it throws p out on an emptied node. */
  lemma FailsThoughTakenOnlyByInterrupt<T>(s: State<T>, e: Event<T>, p: nat)
    requires Inv(s) && WellFormed(s) && Step(s, e).Some? && p < |s.calls| && s.calls[p].isPut
    ensures ThrewThoughTaken(Step(s, e).value, p) <==> ThrewThoughTaken(s, p) || ThrowsOnEmptied(s, e, p)
  {
    hide Inv, NodeOk, CallOk, Enqueue, Dequeue, SkipCancelled, Fill, Collect, Cancel, SetAt;
    ActorIsOk(s, p);
    match e
    case StartPut(_) =>
    case StartTake =>
    case Interrupt =>
    case Enter(c) => EnterIsNoFailure(s, c, p);
    case Meet(c) => ActorIsOk(s, c); MeetIsNoFailure(s, c, p);
    case Wake(c) => ActorIsOk(s, c); WakeIsNoFailure(s, c, p);
    case TimeOut(c) => ActorIsOk(s, c); TimeOutIsNoFailure(s, c, p);
    case Throw(c) => ActorIsOk(s, c); ThrowFailsOnEmptied(s, c, p);
  }

  /** The state in which put 0 waits for its node, which take 1 has emptied. */
  function PutTaken(): State<int> {
    State([Node(None, EMPTY, 0, Some(1))], [], [],
          [Call(true, Waiting, 0, Some(Item(7, 0))), Call(false, Returned, 0, Some(Item(7, 0)))], map[0 := 1], false)
  }

  /** The state in which put 0 waits and take 1 is about to enter. */
  function PutWaits(): State<int> {
    State([Node(Some(Item(7, 0)), FULL, 0, None)], [0], [],
          [Call(true, Waiting, 0, Some(Item(7, 0))), Call(false, Entering, 0, None)], map[], false)
  }

  lemma PutWaitsIsReached() returns (es: seq<Event<int>>)
    ensures Run(es) == Some(PutWaits())
  {
    hide Run;
    var item := Some(Item(7, 0));
    var s1: State<int> := State([], [], [], [Call(true, Entering, 0, item)], map[], false);
    var s2: State<int> := State([Node(item, FULL, 0, None)], [0], [], [Call(true, Waiting, 0, item)], map[], false);
    var none: seq<Event<int>> := [];
    assert Init<int>().calls + [Call(true, Entering, 0, item)] == s1.calls;
    RunNothing<int>();
    RunStep(none, StartPut(7), Init(), s1);
    assert EnterStep(s1, 0) == Some(s2) by {
      assert s1.calls[0 := Call(true, Waiting, 0, item)] == s2.calls;
      assert s1.nodes + [Node(item, FULL, 0, None)] == s2.nodes && s1.producers + [0] == s2.producers;
    }
    RunStep(none + [StartPut(7)], Enter(0), s1, s2);
    assert s2.calls + [Call(false, Entering, 0, None)] == PutWaits().calls;
    RunStep(none + [StartPut(7)] + [Enter(0)], StartTake, s2, PutWaits());
    es := none + [StartPut(7)] + [Enter(0)] + [StartTake];
  }

  lemma PutTakenIsReached() returns (es: seq<Event<int>>)
    ensures Run(es) == Some(PutTaken())
  {
    hide Run;
    var s, item := PutWaits(), Some(Item(7, 0));
    var t: State<int> := State([Node(item, FULL, 0, Some(1))], [], [],
                               [Call(true, Waiting, 0, item), Call(false, Holding, 0, None)], map[], false);
    es := PutWaitsIsReached();
    assert EnterStep(s, 1) == Some(t) by {
      assert SkipCancelled(s.nodes, s.producers) == [0] && [0][1..] == [];
      assert s.calls[1 := t.calls[1]] == t.calls && s.nodes[0 := t.nodes[0]] == t.nodes;
    }
    RunStep(es, Enter(1), s, t);
    assert MeetStep(t, 1) == Some(PutTaken()) by {
      assert t.calls[1 := PutTaken().calls[1]] == PutTaken().calls;
      assert t.nodes[0 := PutTaken().nodes[0]] == PutTaken().nodes;
      assert t.delivered[0 := 1] == PutTaken().delivered;
    }
    RunStep(es + [Enter(1)], Meet(1), t, PutTaken());
    es := es + [Enter(1)] + [Meet(1)];
  }

  /** The failure happens: a put throws, and its item has been returned by a take. */
  lemma InterruptedPutWasTaken() returns (es: seq<Event<int>>)
    ensures Run(es).Some? && ThrewThoughTaken(Run(es).value, 0) && TakenBy(Run(es).value, 0, 1)
  {
    hide Run;
    var s: State<int> := PutTaken().(interrupted := true);
    var t: State<int> := State([Node(None, CANCELLED, 0, Some(1))], [], [],
                               [Call(true, Threw, 0, Some(Item(7, 0))), s.calls[1]], map[0 := 1], true);
    es := PutTakenIsReached();
    RunStep(es, Interrupt, PutTaken(), s);
    assert ThrowStep(s, 0) == Some(t) by {
      assert s.calls[0 := t.calls[0]] == t.calls && s.nodes[0 := t.nodes[0]] == t.nodes;
    }
    RunStep(es + [Interrupt], Throw(0), s, t);
    es := es + [Interrupt] + [Throw(0)];
  }
}
