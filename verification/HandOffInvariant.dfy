/** What every step of the hand-off protocol keeps. */
module HandOffInvariant {
  import opened HandOff
  import opened Options

  // ----- the invariant

  ghost predicate ProducerNodeOk<T>(s: State<T>, n: nat)
    requires n < |s.nodes| && s.nodes[n].owner < |s.calls|
  {
    var nd, o := s.nodes[n], s.calls[s.nodes[n].owner];
    && (nd.state == FULL ==>
          && nd.slot == o.item && nd.slot.Some? && nd.slot.value.put == nd.owner && nd.owner !in s.delivered
          && o.at == Waiting && o.node == n
          && (nd.peer == None ==> n in s.producers)
          && (nd.peer.Some? ==>
                && nd.peer.value < |s.calls|
                && var p := s.calls[nd.peer.value]; !p.isPut && p.at == Holding && p.node == n))
    && (nd.state == EMPTY ==>
          && nd.peer.Some? && nd.owner in s.delivered && o.node == n
          && (o.at == Waiting || o.at == Returned || (s.interrupted && o.at == Threw)))
  }

  ghost predicate ConsumerNodeOk<T>(s: State<T>, n: nat)
    requires n < |s.nodes| && s.nodes[n].owner < |s.calls|
  {
    var nd, o := s.nodes[n], s.calls[s.nodes[n].owner];
    && (nd.state != CANCELLED && nd.peer.Some? ==> nd.peer.value < |s.calls|)
    && (nd.state == FULL ==>
          && nd.slot.Some? && nd.peer == Some(nd.slot.value.put) && nd.peer.value !in s.delivered
          && o.at == Waiting && o.node == n
          && var p := s.calls[nd.peer.value]; p.isPut && p.at == Returned && p.node == n && p.item == nd.slot)
    && (nd.state == EMPTY && nd.peer == None ==> o.at == Waiting && o.node == n && n in s.consumers)
    && (nd.state == EMPTY && nd.peer.Some? ==>
          && var p := s.calls[nd.peer.value];
          && p.isPut
          && if p.at == Holding && p.node == n then o.at == Waiting && o.node == n else o.at == Returned)
  }

  ghost predicate NodeOk<T>(s: State<T>, n: nat)
    requires n < |s.nodes|
  {
    && s.nodes[n].owner < |s.calls|
    && (s.nodes[n].state == FULL <==> s.nodes[n].slot.Some?)
    && if s.calls[s.nodes[n].owner].isPut then ProducerNodeOk(s, n) else ConsumerNodeOk(s, n)
  }

  ghost predicate HoldingOk<T>(s: State<T>, c: nat)
    requires c < |s.calls|
  {
    var n := s.calls[c].node;
    && n < |s.nodes| && s.nodes[n].peer == Some(c)
    && s.nodes[n].owner < |s.calls| && s.calls[s.nodes[n].owner].isPut != s.calls[c].isPut
    && s.nodes[n].state != (if s.calls[c].isPut then FULL else EMPTY)
  }

  ghost predicate PutOk<T>(s: State<T>, c: nat)
    requires c < |s.calls|
  {
    var call, n := s.calls[c], s.calls[c].node;
    && call.item.Some? && call.item.value.put == c
    && (call.at == Holding ==> HoldingOk(s, c))
    && (call.at == Waiting ==>
          && n < |s.nodes| && s.nodes[n].owner == c && (c in s.delivered <==> s.nodes[n].state == EMPTY)
          && (s.nodes[n].state == CANCELLED ==> s.interrupted))
    && (call.at == Returned ==>
          n < |s.nodes| && (s.interrupted || c in s.delivered || s.nodes[n].slot == call.item))
    && (call.at == Entering || call.at == Holding || call.at == TimedOut ==> c !in s.delivered)
    && (call.at == Threw ==> s.interrupted)
  }

  ghost predicate TakeOk<T>(s: State<T>, c: nat)
    requires c < |s.calls|
  {
    var call, n := s.calls[c], s.calls[c].node;
    && (call.at == Holding ==> HoldingOk(s, c))
    && (call.at == Waiting ==>
          n < |s.nodes| && s.nodes[n].owner == c && (s.nodes[n].state == CANCELLED ==> s.interrupted))
    && (call.at == Returned ==>
          && call.item.Some?
          && var p := call.item.value.put;
          && p in s.delivered && s.delivered[p] == c
          && p < |s.calls| && s.calls[p].isPut && s.calls[p].item == call.item
          && (s.calls[p].at == Waiting || s.calls[p].at == Returned || s.calls[p].at == Threw))
    && (call.at == Threw ==> s.interrupted)
  }

  ghost predicate CallOk<T>(s: State<T>, c: nat)
    requires c < |s.calls|
  {
    if s.calls[c].isPut then PutOk(s, c) else TakeOk(s, c)
  }

  ghost predicate QueueOk<T>(s: State<T>, q: seq<nat>, isPut: bool) {
    && Bounded(s.nodes, q)
    && (forall i, j :: 0 <= i < j < |q| ==> q[i] != q[j])
    && (forall n :: n in q ==>
          && n < |s.nodes| && s.nodes[n].peer == None
          && s.nodes[n].owner < |s.calls| && s.calls[s.nodes[n].owner].isPut == isPut)
  }

  /** A producer and a consumer never sit in their queues at the same time. */
  ghost predicate Queues<T>(s: State<T>) {
    && (s.producers == [] || s.consumers == [])
    && QueueOk(s, s.producers, true)
    && QueueOk(s, s.consumers, false)
  }

  ghost predicate History<T>(s: State<T>) {
    forall p :: p in s.delivered ==>
      && p < |s.calls| && s.delivered[p] < |s.calls|
      && var k := s.calls[s.delivered[p]];
      !k.isPut && k.at == Returned && k.item.Some? && k.item.value.put == p
  }

  ghost predicate Inv<T>(s: State<T>) {
    && Queues(s)
    && History(s)
    && (forall n :: 0 <= n < |s.nodes| ==> NodeOk(s, n))
    && (forall c :: 0 <= c < |s.calls| ==> CallOk(s, c))
  }

  lemma InvIsWellFormed<T>(s: State<T>)
    requires Inv(s)
    ensures WellFormed(s)
  {
    forall n | 0 <= n < |s.nodes| ensures s.nodes[n].state == FULL <==> s.nodes[n].slot.Some? {
      assert NodeOk(s, n);
    }
    forall c | 0 <= c < |s.calls| && s.calls[c].at in {Holding, Waiting} ensures s.calls[c].node < |s.nodes| {
      assert CallOk(s, c);
    }
  }

  // ----- one call, one node at a time

  /** Call c may act: it satisfies the invariant, and so does the node it refers to. */
  ghost predicate ActorOk<T>(s: State<T>, c: nat) {
    && c < |s.calls| && CallOk(s, c)
    && (s.calls[c].at == Holding || s.calls[c].at == Waiting ==> NodeOk(s, s.calls[c].node))
  }

  /** Node n is a live node that call c may dequeue. */
  ghost predicate Offered<T>(s: State<T>, c: nat, n: nat)
    requires c < |s.calls|
  {
    && n < |s.nodes| && NodeOk(s, n)
    && s.nodes[n].peer == None && s.nodes[n].state != CANCELLED
    && s.calls[s.nodes[n].owner].isPut != s.calls[c].isPut
  }

  lemma EnqueueKeepsCall<T>(s: State<T>, c: nat, d: nat)
    requires ActorOk(s, c) && s.calls[c].at == Entering && d < |s.calls| && CallOk(s, d)
    ensures CallOk(Enqueue(s, c), d)
  {
  }

  lemma EnqueueKeepsNode<T>(s: State<T>, c: nat, m: nat)
    requires ActorOk(s, c) && s.calls[c].at == Entering && m < |s.nodes| && NodeOk(s, m)
    requires s.nodes[m].state != CANCELLED ==> m !in s.Opposite(s.calls[c].isPut)
    ensures NodeOk(Enqueue(s, c), m)
  {
  }

  lemma DequeueKeepsCall<T>(s: State<T>, c: nat, n: nat, rest: seq<nat>, d: nat)
    requires ActorOk(s, c) && s.calls[c].at == Entering && Offered(s, c, n) && d < |s.calls| && CallOk(s, d)
    ensures CallOk(Dequeue(s, c, n, rest), d)
  {
  }

  lemma DequeueKeepsNode<T>(s: State<T>, c: nat, n: nat, rest: seq<nat>, m: nat)
    requires ActorOk(s, c) && s.calls[c].at == Entering && Offered(s, c, n) && m < |s.nodes| && NodeOk(s, m)
    requires m == n || s.nodes[m].state == CANCELLED || (m in s.Opposite(s.calls[c].isPut) ==> m in rest)
    ensures NodeOk(Dequeue(s, c, n, rest), m)
  {
  }

  /** Call c goes back to the channel, its node being useless to it, or gives up before it has one. */
  ghost predicate MayReturn<T>(s: State<T>, c: nat, at: At)
    requires ActorOk(s, c)
  {
    var call := s.calls[c];
    match at
    case Entering => (call.at == Holding || call.at == Waiting) && s.nodes[call.node].state == CANCELLED
    case Threw => call.at == Entering && s.interrupted
    case Returned => call.isPut && call.at == Waiting && s.nodes[call.node].state == EMPTY
    case _ => false
  }

  lemma SetAtKeepsCall<T>(s: State<T>, c: nat, at: At, d: nat)
    requires ActorOk(s, c) && MayReturn(s, c, at) && d < |s.calls| && CallOk(s, d)
    ensures CallOk(SetAt(s, c, at), d)
  {
  }

  lemma SetAtKeepsNode<T>(s: State<T>, c: nat, at: At, m: nat)
    requires ActorOk(s, c) && MayReturn(s, c, at) && m < |s.nodes| && NodeOk(s, m)
    ensures NodeOk(SetAt(s, c, at), m)
  {
  }

  ghost predicate MayFill<T>(s: State<T>, c: nat)
    requires ActorOk(s, c)
  {
    s.calls[c].isPut && s.calls[c].at == Holding && s.nodes[s.calls[c].node].state == EMPTY
  }

  lemma FillKeepsCall<T>(s: State<T>, c: nat, d: nat)
    requires ActorOk(s, c) && MayFill(s, c) && d < |s.calls| && CallOk(s, d)
    ensures CallOk(Fill(s, c), d)
  {
  }

  lemma FillKeepsNode<T>(s: State<T>, c: nat, m: nat)
    requires ActorOk(s, c) && MayFill(s, c) && m < |s.nodes| && NodeOk(s, m)
    ensures NodeOk(Fill(s, c), m)
  {
  }

  ghost predicate MayCollect<T>(s: State<T>, c: nat)
    requires ActorOk(s, c)
  {
    !s.calls[c].isPut && s.calls[c].at in {Holding, Waiting} && s.nodes[s.calls[c].node].state == FULL
  }

  lemma CollectKeepsCall<T>(s: State<T>, c: nat, d: nat)
    requires ActorOk(s, c) && MayCollect(s, c) && d < |s.calls| && CallOk(s, d)
    ensures CallOk(Collect(s, c), d)
  {
  }

  lemma CollectKeepsNode<T>(s: State<T>, c: nat, m: nat)
    requires ActorOk(s, c) && MayCollect(s, c) && m < |s.nodes| && NodeOk(s, m)
    ensures NodeOk(Collect(s, c), m)
  {
  }

  ghost predicate MayCancel<T>(s: State<T>, c: nat, at: At)
    requires ActorOk(s, c)
  {
    match at
    case Threw => s.interrupted && s.calls[c].at in {Holding, Waiting}
    case TimedOut =>
      s.calls[c].at == Waiting && s.nodes[s.calls[c].node].state == (if s.calls[c].isPut then FULL else EMPTY)
    case _ => false
  }

  lemma CancelKeepsCall<T>(s: State<T>, c: nat, at: At, d: nat)
    requires ActorOk(s, c) && MayCancel(s, c, at) && d < |s.calls| && CallOk(s, d)
    ensures CallOk(Cancel(s, c, at), d)
  {
  }

  lemma CancelKeepsNode<T>(s: State<T>, c: nat, at: At, m: nat)
    requires ActorOk(s, c) && MayCancel(s, c, at) && m < |s.nodes| && NodeOk(s, m)
    ensures NodeOk(Cancel(s, c, at), m)
  {
  }

  // ----- every step keeps the invariant

  /** A queue stays well formed when the nodes in it keep their owner and their lack of a peer. */
  lemma QueueFrame<T>(s: State<T>, t: State<T>, q: seq<nat>, isPut: bool)
    requires QueueOk(s, q, isPut)
    requires |s.nodes| <= |t.nodes| && |s.calls| <= |t.calls|
    requires forall n :: n in q && n < |s.nodes| ==>
               t.nodes[n].owner == s.nodes[n].owner && t.nodes[n].peer == s.nodes[n].peer
    requires forall c :: 0 <= c < |s.calls| ==> t.calls[c].isPut == s.calls[c].isPut
    ensures QueueOk(t, q, isPut)
  {
  }

  lemma EnqueueKeepsQueues<T>(s: State<T>, c: nat)
    requires c < |s.calls| && Queues(s)
    ensures Queues(Enqueue(s, c))
  {
    var t, isPut := Enqueue(s, c), s.calls[c].isPut;
    var q, r := s.Opposite(!isPut), t.Opposite(!isPut);
    assert r == q + [|s.nodes|] && t.Opposite(isPut) == [];
    QueueFrame(s, t, q, isPut);
    assert |s.nodes| !in q;
    assert QueueOk(t, r, isPut);
    assert QueueOk(t, [], !isPut);
  }

  lemma QueueOkRest<T>(s: State<T>, q: seq<nat>, isPut: bool, k: nat)
    requires QueueOk(s, q, isPut) && k < |q|
    ensures QueueOk(s, q[k + 1..], isPut) && q[k] < |s.nodes| && q[k] !in q[k + 1..]
  {
  }

  lemma DequeueKeepsQueues<T>(s: State<T>, c: nat, k: nat)
    requires c < |s.calls| && Queues(s) && k < |s.Opposite(s.calls[c].isPut)|
    ensures var q := s.Opposite(s.calls[c].isPut); Queues(Dequeue(s, c, q[k], q[k + 1..]))
  {
    var isPut, q := s.calls[c].isPut, s.Opposite(s.calls[c].isPut);
    var t := Dequeue(s, c, q[k], q[k + 1..]);
    assert QueueOk(s, q, !isPut) && s.Opposite(!isPut) == [];
    QueueOkRest(s, q, !isPut, k);
    hide QueueOk;
    QueueFrameAt(s, t, q[k + 1..], !isPut);
    EmptyQueueOk(t, isPut);
  }

  lemma QueueFrameAt<T>(s: State<T>, t: State<T>, q: seq<nat>, isPut: bool)
    requires QueueOk(s, q, isPut) && |s.nodes| == |t.nodes| && |s.calls| == |t.calls|
    requires forall n :: n in q && n < |s.nodes| ==> t.nodes[n] == s.nodes[n]
    requires forall c :: 0 <= c < |s.calls| ==> t.calls[c].isPut == s.calls[c].isPut
    ensures QueueOk(t, q, isPut)
  {
  }

  lemma EmptyQueueOk<T>(s: State<T>, isPut: bool)
    ensures QueueOk(s, [], isPut)
  {
  }

  lemma EnqueueKeepsInv<T>(s: State<T>, c: nat)
    requires Inv(s) && c < |s.calls| && s.calls[c].at == Entering
    requires forall n :: n in s.Opposite(s.calls[c].isPut) && n < |s.nodes| ==> s.nodes[n].state == CANCELLED
    ensures Inv(Enqueue(s, c))
  {
    var t := Enqueue(s, c);
    assert CallOk(s, c);
    EnqueueKeepsQueues(s, c);
    forall m | 0 <= m < |t.nodes| ensures NodeOk(t, m) {
      if m < |s.nodes| { assert NodeOk(s, m); EnqueueKeepsNode(s, c, m); }
    }
    forall d | 0 <= d < |t.calls| ensures CallOk(t, d) { assert CallOk(s, d); EnqueueKeepsCall(s, c, d); }
  }

  lemma DequeueKeepsInv<T>(s: State<T>, c: nat, k: nat)
    requires Inv(s) && c < |s.calls| && s.calls[c].at == Entering
    requires k < |s.Opposite(s.calls[c].isPut)|
    requires var q := s.Opposite(s.calls[c].isPut);
             && (forall i :: 0 <= i < k ==> s.nodes[q[i]].state == CANCELLED)
             && s.nodes[q[k]].state != CANCELLED
    ensures var q := s.Opposite(s.calls[c].isPut); Inv(Dequeue(s, c, q[k], q[k + 1..]))
  {
    var q := s.Opposite(s.calls[c].isPut);
    var n, rest := q[k], q[k + 1..];
    var t := Dequeue(s, c, n, rest);
    assert CallOk(s, c) && NodeOk(s, n) && Offered(s, c, n);
    DequeueKeepsQueues(s, c, k);
    DequeueKeepsHistory(s, c, n, rest);
    hide NodeOk, CallOk, Queues, History;
    forall m | 0 <= m < |t.nodes| ensures NodeOk(t, m) {
      assert NodeOk(s, m);
      LeftInQueue(s, q, k, m);
      DequeueKeepsNode(s, c, n, rest, m);
    }
    forall d | 0 <= d < |t.calls| ensures CallOk(t, d) { assert CallOk(s, d); DequeueKeepsCall(s, c, n, rest, d); }
  }

  lemma DequeueKeepsHistory<T>(s: State<T>, c: nat, n: nat, rest: seq<nat>)
    requires History(s) && c < |s.calls| && s.calls[c].at == Entering && n < |s.nodes|
    ensures History(Dequeue(s, c, n, rest))
  {
  }

  /** The nodes of a queue that deque passes over are cancelled, the others stay behind the one it returns. */
  lemma LeftInQueue<T>(s: State<T>, q: seq<nat>, k: nat, m: nat)
    requires k < |q| && m < |s.nodes|
    requires forall i :: 0 <= i < k ==> q[i] < |s.nodes| && s.nodes[q[i]].state == CANCELLED
    ensures m in q ==> m == q[k] || s.nodes[m].state == CANCELLED || m in q[k + 1..]
  {
    assert q == q[..k] + [q[k]] + q[k + 1..];
  }

  lemma EnterKeepsInv<T>(s: State<T>, c: nat)
    requires Inv(s) && WellFormed(s) && EnterStep(s, c).Some?
    ensures Inv(EnterStep(s, c).value)
  {
    var k := SkipCancelledIsOldest(s.nodes, s.Opposite(s.calls[c].isPut));
    if k == |s.Opposite(s.calls[c].isPut)| {
      EnqueueKeepsInv(s, c);
    } else {
      DequeueKeepsInv(s, c, k);
    }
  }

  lemma SetAtKeepsInv<T>(s: State<T>, c: nat, at: At)
    requires Inv(s) && ActorOk(s, c) && MayReturn(s, c, at)
    ensures Inv(SetAt(s, c, at))
  {
    var t := SetAt(s, c, at);
    QueueFrame(s, t, s.producers, true);
    QueueFrame(s, t, s.consumers, false);
    forall m | 0 <= m < |t.nodes| ensures NodeOk(t, m) { assert NodeOk(s, m); SetAtKeepsNode(s, c, at, m); }
    forall d | 0 <= d < |t.calls| ensures CallOk(t, d) { assert CallOk(s, d); SetAtKeepsCall(s, c, at, d); }
  }

  lemma FillKeepsInv<T>(s: State<T>, c: nat)
    requires Inv(s) && ActorOk(s, c) && MayFill(s, c)
    ensures Inv(Fill(s, c))
  {
    var t := Fill(s, c);
    QueueFrame(s, t, s.producers, true);
    QueueFrame(s, t, s.consumers, false);
    forall m | 0 <= m < |t.nodes| ensures NodeOk(t, m) { assert NodeOk(s, m); FillKeepsNode(s, c, m); }
    forall d | 0 <= d < |t.calls| ensures CallOk(t, d) { assert CallOk(s, d); FillKeepsCall(s, c, d); }
  }

  lemma CollectKeepsInv<T>(s: State<T>, c: nat)
    requires Inv(s) && ActorOk(s, c) && MayCollect(s, c)
    ensures Inv(Collect(s, c))
  {
    var t := Collect(s, c);
    QueueFrame(s, t, s.producers, true);
    QueueFrame(s, t, s.consumers, false);
    forall m | 0 <= m < |t.nodes| ensures NodeOk(t, m) { assert NodeOk(s, m); CollectKeepsNode(s, c, m); }
    forall d | 0 <= d < |t.calls| ensures CallOk(t, d) { assert CallOk(s, d); CollectKeepsCall(s, c, d); }
  }

  lemma CancelKeepsInv<T>(s: State<T>, c: nat, at: At)
    requires Inv(s) && ActorOk(s, c) && MayCancel(s, c, at)
    ensures Inv(Cancel(s, c, at))
  {
    var t := Cancel(s, c, at);
    QueueFrame(s, t, s.producers, true);
    QueueFrame(s, t, s.consumers, false);
    forall m | 0 <= m < |t.nodes| ensures NodeOk(t, m) { assert NodeOk(s, m); CancelKeepsNode(s, c, at, m); }
    forall d | 0 <= d < |t.calls| ensures CallOk(t, d) { assert CallOk(s, d); CancelKeepsCall(s, c, at, d); }
  }

  lemma ActorIsOk<T>(s: State<T>, c: nat)
    requires Inv(s) && c < |s.calls|
    ensures ActorOk(s, c)
  {
    assert CallOk(s, c);
    if s.calls[c].at == Holding || s.calls[c].at == Waiting {
      assert NodeOk(s, s.calls[c].node);
    }
  }

  lemma StartKeepsInv<T>(s: State<T>, call: Call<T>)
    requires Inv(s) && call.at == Entering
    requires if call.isPut then call.item.Some? && call.item.value.put == |s.calls| else true
    ensures Inv(s.(calls := s.calls + [call]))
  {
    var t := s.(calls := s.calls + [call]);
    QueueFrame(s, t, s.producers, true);
    QueueFrame(s, t, s.consumers, false);
    forall m | 0 <= m < |t.nodes| ensures NodeOk(t, m) { assert NodeOk(s, m); }
    forall d | 0 <= d < |t.calls| ensures CallOk(t, d) {
      if d < |s.calls| { assert CallOk(s, d); }
    }
  }

  lemma InterruptKeepsInv<T>(s: State<T>)
    requires Inv(s)
    ensures Inv(s.(interrupted := true))
  {
    var t := s.(interrupted := true);
    QueueFrame(s, t, s.producers, true);
    QueueFrame(s, t, s.consumers, false);
    forall m | 0 <= m < |t.nodes| ensures NodeOk(t, m) { assert NodeOk(s, m); }
    forall d | 0 <= d < |t.calls| ensures CallOk(t, d) { assert CallOk(s, d); }
  }

  lemma MeetKeepsInv<T>(s: State<T>, c: nat)
    requires Inv(s) && WellFormed(s) && MeetStep(s, c).Some?
    ensures Inv(MeetStep(s, c).value)
  {
    ActorIsOk(s, c);
    if MayFill(s, c) { FillKeepsInv(s, c); }
    else if MayCollect(s, c) { CollectKeepsInv(s, c); }
    else { SetAtKeepsInv(s, c, Entering); }
  }

  lemma WakeKeepsInv<T>(s: State<T>, c: nat)
    requires Inv(s) && WellFormed(s) && WakeStep(s, c).Some?
    ensures Inv(WakeStep(s, c).value)
  {
    ActorIsOk(s, c);
    if MayCollect(s, c) { CollectKeepsInv(s, c); }
    else { SetAtKeepsInv(s, c, WakeStep(s, c).value.calls[c].at); }
  }

  lemma TimeOutKeepsInv<T>(s: State<T>, c: nat)
    requires Inv(s) && WellFormed(s) && TimeOutStep(s, c).Some?
    ensures Inv(TimeOutStep(s, c).value)
  {
    ActorIsOk(s, c);
    CancelKeepsInv(s, c, if s.interrupted then Threw else TimedOut);
  }

  lemma ThrowKeepsInv<T>(s: State<T>, c: nat)
    requires Inv(s) && WellFormed(s) && ThrowStep(s, c).Some?
    ensures Inv(ThrowStep(s, c).value)
  {
    ActorIsOk(s, c);
    if s.calls[c].at == Entering { SetAtKeepsInv(s, c, Threw); } else { CancelKeepsInv(s, c, Threw); }
  }

  lemma StepKeepsInv<T>(s: State<T>, e: Event<T>)
    requires Inv(s) && WellFormed(s) && Step(s, e).Some?
    ensures Inv(Step(s, e).value)
  {
    match e
    case StartPut(v) => StartKeepsInv(s, Call(true, Entering, 0, Some(Item(v, |s.calls|))));
    case StartTake => StartKeepsInv(s, Call(false, Entering, 0, None));
    case Interrupt => InterruptKeepsInv(s);
    case Enter(c) => EnterKeepsInv(s, c);
    case Meet(c) => MeetKeepsInv(s, c);
    case Wake(c) => WakeKeepsInv(s, c);
    case TimeOut(c) => TimeOutKeepsInv(s, c);
    case Throw(c) => ThrowKeepsInv(s, c);
  }

  /** The state after a run, or None when some event could not happen where it stands. Every state on the way is well
      formed (RunKeepsInv). */
  ghost function Run<T>(es: seq<Event<T>>): Option<State<T>> {
    if es == [] then Some(Init())
    else
      match Run(es[..|es| - 1])
      case None => None
      case Some(s) => if WellFormed(s) then Step(s, es[|es| - 1]) else None
  }

  lemma {:induction false} RunKeepsInv<T>(es: seq<Event<T>>)
    requires Run(es).Some?
    ensures Inv(Run(es).value) && WellFormed(Run(es).value)
  {
    if es != [] {
      RunKeepsInv(es[..|es| - 1]);
      StepKeepsInv(Run(es[..|es| - 1]).value, es[|es| - 1]);
    }
    InvIsWellFormed(Run(es).value);
  }
}
