/** The objects of DAF::SynchronousChannel (daf/SynchronousChannel_T.cpp), section by section, against the machine. */
module SynchronousChannel {
  import opened HandOff
  import opened HandOffInvariant
  import opened Options

  /** A slot shared by a waiting call and the call that meets it; None is the default value of the item type. */
  class SYNCHNode<T> {
    var slot: Option<Item<T>>
    var state: NodeState

    constructor (item: Option<Item<T>>)
      ensures slot == item && state == if item.Some? then FULL else EMPTY
    {
      slot, state := item, if item.Some? then FULL else EMPTY;
    }

    /** state(int) */
    method SetState(to: NodeState)
      modifies this
      ensures state == to && slot == if to == FULL then old(slot) else None
    {
      if to != FULL {
        slot := None;
      }
      state := to;
    }

    /** put_item */
    method PutItem(item: Option<Item<T>>) returns (r: int)
      modifies this
      ensures r == if old(state) == EMPTY then 0 else -1
      ensures r == 0 ==> slot == item && state == FULL
      ensures r != 0 ==> slot == old(slot) && state == old(state)
    {
      if state == EMPTY {
        slot := item;
        SetState(FULL);
        return 0;
      }
      r := -1;
    }

    /** get_item */
    method GetItem() returns (r: int, item: Option<Item<T>>)
      modifies this
      ensures r == if old(state) == FULL then 0 else -1
      ensures r == 0 ==> item == old(slot) && slot == None && state == EMPTY
      ensures r != 0 ==> item == None && slot == old(slot) && state == old(state)
    {
      if state == FULL {
        item := slot;
        SetState(EMPTY);
        return 0, item;
      }
      r, item := -1, None;
    }
  }

  /** The nodes before place k are cancelled, and the one there, if there is one, is not. */
  ghost predicate FirstLive<T>(list: seq<SYNCHNode<T>>, k: nat)
    reads list
  {
    && k <= |list| && (forall i :: 0 <= i < k ==> list[i].state == CANCELLED)
    && (k < |list| ==> list[k].state != CANCELLED)
  }

  class WaiterQueue<T> {
    var list: seq<SYNCHNode<T>>

    constructor ()
      ensures list == []
    {
      list := [];
    }

    /** deque: the oldest node that is not cancelled, the cancelled ones before it being dropped; null if there is
        none */
    method Deque() returns (node: SYNCHNode?<T>, ghost k: nat)
      modifies this
      ensures FirstLive(old(list), k)
      ensures k < |old(list)| ==> node == old(list)[k] && list == old(list)[k + 1..]
      ensures k == |old(list)| ==> node == null && list == []
    {
      k := 0;
      while list != []
        invariant k <= |old(list)| && list == old(list)[k..]
        invariant forall i :: 0 <= i < k ==> old(list)[i].state == CANCELLED
        decreases |list|
      {
        var item := list[0];
        list := list[1..];
        if item.state != CANCELLED {
          return item, k;
        }
        k := k + 1;
      }
      node := null;
    }

    /** enque */
    method Enque(node: SYNCHNode<T>)
      modifies this
      ensures list == old(list) + [node]
    {
      list := list + [node];
    }
  }

  lemma {:induction false} SkipAt<T>(nodes: seq<Node<T>>, q: seq<nat>, k: nat)
    requires Bounded(nodes, q) && k <= |q|
    requires forall i :: 0 <= i < k ==> nodes[q[i]].state == CANCELLED
    requires k < |q| ==> nodes[q[k]].state != CANCELLED
    ensures SkipCancelled(nodes, q) == q[k..]
  {
    if k > 0 {
      SkipAt(nodes, q[1..], k - 1);
      assert q[1..][k - 1..] == q[k..];
    }
  }

  /** The two outcomes of the section under the lock of the channel */
  lemma EnterAt<T>(s: State<T>, c: nat, k: nat)
    requires WellFormed(s) && c < |s.calls| && s.calls[c].at == Entering
    requires k <= |s.Opposite(s.calls[c].isPut)|
    requires SkipCancelled(s.nodes, s.Opposite(s.calls[c].isPut)) == s.Opposite(s.calls[c].isPut)[k..]
    ensures var isPut, q := s.calls[c].isPut, s.Opposite(s.calls[c].isPut);
      if k == |q| then
        var t, n := Enqueue(s, c), |s.nodes|;
        && EnterStep(s, c) == Some(t) && t.interrupted == s.interrupted && |t.calls| == |s.calls|
        && t.nodes == s.nodes + [if isPut then Node(s.calls[c].item, FULL, c, None) else Node(None, EMPTY, c, None)]
        && t.Opposite(isPut) == [] && t.Opposite(!isPut) == s.Opposite(!isPut) + [n]
        && t.calls[c].node == n && t.calls[c].at == Waiting
      else
        var n := q[k];
        var t := Dequeue(s, c, n, q[k + 1..]);
        && EnterStep(s, c) == Some(t) && t.interrupted == s.interrupted && |t.calls| == |s.calls|
        && n < |s.nodes| && t.nodes == s.nodes[n := s.nodes[n].(peer := Some(c))]
        && t.Opposite(isPut) == q[k + 1..] && t.Opposite(!isPut) == s.Opposite(!isPut)
        && t.calls[c].node == n && t.calls[c].at == Holding
  {
  }

  /** The nodes have the items and states of the machine. */
  ghost predicate Agree<T>(nodes: seq<SYNCHNode<T>>, abs: seq<Node<T>>)
    reads nodes
  {
    && |nodes| == |abs|
    && (forall i, j :: 0 <= i < j < |nodes| ==> nodes[i] != nodes[j])
    && (forall n :: 0 <= n < |nodes| ==> nodes[n].slot == abs[n].slot && nodes[n].state == abs[n].state)
  }

  /** The list holds the nodes with the given numbers. */
  ghost predicate Holds<T>(nodes: seq<SYNCHNode<T>>, list: seq<SYNCHNode<T>>, q: seq<nat>) {
    |list| == |q| && forall i :: 0 <= i < |q| ==> q[i] < |nodes| && list[i] == nodes[q[i]]
  }

  /** What deque has found in a list is what the machine finds in its queue. */
  lemma OldestLive<T>(nodes: seq<SYNCHNode<T>>, abs: seq<Node<T>>, list: seq<SYNCHNode<T>>, q: seq<nat>, k: nat)
    requires Agree(nodes, abs) && Holds(nodes, list, q) && FirstLive(list, k)
    ensures Bounded(abs, q) && SkipCancelled(abs, q) == q[k..]
    ensures k < |q| ==> Holds(nodes, list[k + 1..], q[k + 1..]) && q[k] < |nodes| && list[k] == nodes[q[k]]
  {
    hide SkipCancelled;
    HoldsRest(nodes, list, q, k);
    assert Bounded(abs, q);
    forall i | 0 <= i < k ensures abs[q[i]].state == CANCELLED { assert list[i] == nodes[q[i]]; }
    SkipAt(abs, q, k);
  }

  lemma HoldsRest<T>(nodes: seq<SYNCHNode<T>>, list: seq<SYNCHNode<T>>, q: seq<nat>, k: nat)
    requires Holds(nodes, list, q) && k <= |q|
    ensures k < |q| ==> Holds(nodes, list[k + 1..], q[k + 1..])
  {
  }

  class SynchronousChannel<T> {
    const waitingProducers: WaiterQueue<T>
    const waitingConsumers: WaiterQueue<T>
    var interrupted: bool

    // every node made so far, and the state of the machine
    ghost var nodes: seq<SYNCHNode<T>>
    ghost var state: State<T>

    ghost predicate Valid()
      reads this, nodes, waitingProducers, waitingConsumers
    {
      && waitingProducers != waitingConsumers
      && Inv(state) && interrupted == state.interrupted
      && Agree(nodes, state.nodes)
      && Holds(nodes, waitingProducers.list, state.producers)
      && Holds(nodes, waitingConsumers.list, state.consumers)
    }

    constructor ()
      ensures Valid() && state == Init() && fresh(waitingProducers) && fresh(waitingConsumers)
    {
      waitingProducers := new WaiterQueue();
      waitingConsumers := new WaiterQueue();
      interrupted, nodes, state := false, [], Init();
      new;
      assert waitingProducers != waitingConsumers;
    }

    /** A call of put or take begins. */
    ghost method Begin(e: Event<T>)
      requires Valid() && (e.StartPut? || e.StartTake?)
      modifies this`state
      ensures Valid() && WellFormed(old(state)) && Step(old(state), e) == Some(state)
      ensures var c := |old(state.calls)|;
        && |state.calls| == c + 1 && state.calls[..c] == old(state.calls)
        && state.calls[c].at == Entering && state.calls[c].isPut == e.StartPut?
        && state.calls[c].item == if e.StartPut? then Some(Item(e.value, c)) else None
    {
      InvIsWellFormed(state);
      StepKeepsInv(state, e);
      hide Inv, Holds;
      state := Step(state, e).value;
    }

    /** interrupt, which is never taken back */
    method Interrupt()
      requires Valid()
      modifies this`state, this`interrupted
      ensures Valid() && interrupted && WellFormed(old(state)) && Step(old(state), Event.Interrupt) == Some(state)
    {
      InvIsWellFormed(state);
      InterruptKeepsInv(state);
      hide Inv, Holds;
      interrupted, state := true, state.(interrupted := true);
    }

    /** The section of put or take under the lock of the channel: the call gets the other side's oldest live node,
        behind k cancelled ones, or queues up with a node of its own */
    method Enter(ghost c: nat, isPut: bool, item: Option<Item<T>>)
      returns (node: SYNCHNode<T>, waits: bool, ghost k: nat)
      requires Valid() && c < |state.calls| && state.calls[c].at == Entering && state.calls[c].isPut == isPut
      requires item == if isPut then state.calls[c].item else None
      modifies this, waitingProducers, waitingConsumers
      ensures Valid() && WellFormed(old(state)) && EnterStep(old(state), c) == Some(state)
      ensures nodes == old(nodes) || (fresh(node) && nodes == old(nodes) + [node])
      ensures c < |state.calls| && state.calls[c].node < |nodes| && node == nodes[state.calls[c].node]
      ensures waits <==> state.calls[c].at == Waiting
      ensures old(FirstLive(Mine(!isPut).list, k))
      ensures waits <==> k == |old(Mine(!isPut).list)|
      ensures Mine(!isPut).list == if waits then [] else old(Mine(!isPut).list)[k + 1..]
      ensures Mine(isPut).list == old(Mine(isPut).list) + if waits then [node] else []
      ensures waits ==> fresh(node) && node.slot == item && node.state == if isPut then FULL else EMPTY
      ensures !waits ==> node == old(Mine(!isPut).list)[k]
    {
      InvIsWellFormed(state);
      EnterKeepsInv(state, c);
      ActorIsOk(state, c);
      assert isPut ==> item.Some?;
      hide Inv, CallOk, NodeOk, WellFormed, EnterStep, Enqueue, Dequeue, Holds, SkipCancelled, Bounded;
      var found: SYNCHNode?<T>;
      found, k := Find(c, isPut);
      waits := found == null;
      if found == null {
        node := Queue(c, isPut, item);
      } else {
        node := found;
      }
    }

    function Mine(isPut: bool): WaiterQueue<T> { if isPut then waitingProducers else waitingConsumers }

    /** The other side's oldest live node, which the call claims, if there is one */
    method Find(ghost c: nat, isPut: bool) returns (found: SYNCHNode?<T>, ghost k: nat)
      requires Valid() && WellFormed(state)
      requires c < |state.calls| && state.calls[c].at == Entering && state.calls[c].isPut == isPut
      modifies this`state, Mine(!isPut)
      ensures old(FirstLive(Mine(!isPut).list, k)) && (found == null <==> k == |old(Mine(!isPut).list)|)
      ensures found != null ==>
        && Valid() && EnterStep(old(state), c) == Some(state)
        && c < |state.calls| && state.calls[c].node < |nodes| && found == nodes[state.calls[c].node]
        && state.calls[c].at == Holding
        && found == old(Mine(!isPut).list)[k] && Mine(!isPut).list == old(Mine(!isPut).list)[k + 1..]
      ensures found == null ==>
        && state == old(state) && SkipCancelled(state.nodes, state.Opposite(isPut)) == []
        && Mine(!isPut).list == []
        && Agree(nodes, state.nodes) && Holds(nodes, Mine(isPut).list, state.Opposite(!isPut))
    {
      EnterKeepsInv(state, c);
      hide Inv, CallOk, NodeOk, WellFormed, EnterStep, Enqueue, Dequeue, Holds, SkipCancelled, Bounded;
      ghost var list, q := Mine(!isPut).list, state.Opposite(isPut);
      found, k := Mine(!isPut).Deque();
      OldestLive(nodes, state.nodes, list, q, k);
      EnterAt(state, c, k);
      if found != null {
        Claim(c, q[k], q[k + 1..]);
      }
    }

    /** The call queues up, nobody being there to meet. */
    method Queue(ghost c: nat, isPut: bool, item: Option<Item<T>>) returns (node: SYNCHNode<T>)
      requires waitingProducers != waitingConsumers && interrupted == state.interrupted && WellFormed(state)
      requires Agree(nodes, state.nodes) && Holds(nodes, Mine(isPut).list, state.Opposite(!isPut))
      requires Mine(!isPut).list == [] && SkipCancelled(state.nodes, state.Opposite(isPut)) == []
      requires c < |state.calls| && state.calls[c].at == Entering && state.calls[c].isPut == isPut
      requires if isPut then item.Some? && item == state.calls[c].item else item == None
      requires EnterStep(state, c).Some? && Inv(EnterStep(state, c).value)
      modifies this`nodes, this`state, Mine(isPut)
      ensures Valid() && EnterStep(old(state), c) == Some(state)
      ensures fresh(node) && nodes == old(nodes) + [node] && Mine(isPut).list == old(Mine(isPut).list) + [node]
      ensures node.slot == item && node.state == if isPut then FULL else EMPTY
      ensures c < |state.calls| && state.calls[c].node == |old(nodes)| && state.calls[c].at == Waiting
    {
      EnterAt(state, c, |state.Opposite(isPut)|);
      hide Inv, WellFormed, EnterStep, Enqueue, SkipCancelled, Bounded, Agree;
      node := Park(c, isPut, item, Mine(isPut));
    }

    /** A node of the call's own, behind the others in its queue */
    method Park(ghost c: nat, isPut: bool, item: Option<Item<T>>, mine: WaiterQueue<T>) returns (node: SYNCHNode<T>)
      requires Agree(nodes, state.nodes) && Holds(nodes, mine.list, state.Opposite(!isPut))
      requires c < |state.calls| && state.calls[c].isPut == isPut
      requires if isPut then item.Some? && item == state.calls[c].item else item == None
      modifies this`nodes, this`state, mine
      ensures Agree(nodes, state.nodes) && state == Enqueue(old(state), c)
      ensures Holds(nodes, mine.list, state.Opposite(!isPut))
      ensures fresh(node) && nodes == old(nodes) + [node] && mine.list == old(mine.list) + [node]
      ensures node.slot == item && node.state == if isPut then FULL else EMPTY
    {
      node := new SYNCHNode(item);
      mine.Enque(node);
      nodes, state := nodes + [node], Enqueue(state, c);
    }

    /** The call is now the peer of node n. */
    ghost method Claim(c: nat, n: nat, rest: seq<nat>)
      requires Agree(nodes, state.nodes) && c < |state.calls| && n < |state.nodes|
      modifies this`state
      ensures Agree(nodes, state.nodes) && state == Dequeue(old(state), c, n, rest)
    {
      state := Dequeue(state, c, n, rest);
    }

    // ----- what is done to a node, under its lock

    /** Call c is at work on this node. */
    ghost predicate At(c: nat, node: SYNCHNode<T>)
      reads this
    {
      c < |state.calls| && state.calls[c].node < |nodes| && node == nodes[state.calls[c].node]
    }

    /** The handler of an exception, or of a timeout */
    method Abandon(ghost c: nat, node: SYNCHNode<T>, at: HandOff.At)
      requires Valid() && At(c, node) && ActorOk(state, c) && MayCancel(state, c, at)
      modifies this`state, node
      ensures Valid() && c < |state.calls| && state == Cancel(old(state), c, at) && state.calls[c].at == at
      ensures node.state == CANCELLED && node.slot == None
    {
      CancelKeepsInv(state, c, at);
      hide Inv, CallOk, NodeOk, Holds;
      node.SetState(CANCELLED);
      state := Cancel(state, c, at);
    }

    method Give(ghost c: nat, node: SYNCHNode<T>, item: Option<Item<T>>)
      requires Valid() && At(c, node) && ActorOk(state, c) && MayFill(state, c) && item == state.calls[c].item
      modifies this`state, node
      ensures Valid() && c < |state.calls| && state == Fill(old(state), c) && state.calls[c].at == Returned
      ensures node.state == FULL && node.slot == item
    {
      FillKeepsInv(state, c);
      hide Inv, CallOk, NodeOk, Holds;
      var r := node.PutItem(item);
      state := Fill(state, c);
    }

    method Get(ghost c: nat, node: SYNCHNode<T>) returns (item: Option<Item<T>>)
      requires Valid() && At(c, node) && ActorOk(state, c) && MayCollect(state, c) && WellFormed(state)
      modifies this`state, node
      ensures Valid() && c < |state.calls| && WellFormed(old(state)) && state == Collect(old(state), c)
      ensures state.calls[c].at == Returned && item == state.calls[c].item
      ensures item == old(node.slot) && node.state == EMPTY && node.slot == None
    {
      CollectKeepsInv(state, c);
      hide Inv, CallOk, NodeOk, Holds;
      var r: int;
      r, item := node.GetItem();
      state := Collect(state, c);
    }

    /** Nothing is done to the node. */
    ghost method Move(c: nat, at: HandOff.At)
      requires Valid() && ActorOk(state, c) && MayReturn(state, c, at)
      modifies this`state
      ensures Valid() && c < |state.calls| && state == SetAt(old(state), c, at) && state.calls[c].at == at
    {
      SetAtKeepsInv(state, c, at);
      hide Inv, CallOk, NodeOk, Holds;
      state := SetAt(state, c, at);
    }

    // ----- the sections of put and take under the lock of a node

    /** put at the node of a waiting take */
    method MeetPut(ghost c: nat, node: SYNCHNode<T>, item: Option<Item<T>>) returns (at: HandOff.At)
      requires Valid() && At(c, node) && state.calls[c].isPut && state.calls[c].at == Holding
      requires item == state.calls[c].item
      modifies this`state, node
      ensures Valid() && WellFormed(old(state))
      ensures Step(old(state), if interrupted then Throw(c) else Meet(c)) == Some(state)
      ensures c < |state.calls| && at == state.calls[c].at
      ensures at == if interrupted then Threw else if old(node.state) == EMPTY then Returned else Entering
      ensures at == Returned ==> node.state == FULL && node.slot == item
      ensures at == Threw ==> node.state == CANCELLED && node.slot == None
      ensures at == Entering ==> node.state == old(node.state) && node.slot == old(node.slot)
    {
      InvIsWellFormed(state);
      ActorIsOk(state, c);
      if interrupted {
        Abandon(c, node, Threw);
        return Threw;
      }
      if node.state == EMPTY {
        Give(c, node, item);
        return Returned;
      }
      Move(c, Entering);
      at := Entering;
    }

    /** take at the node of a waiting put */
    method MeetTake(ghost c: nat, node: SYNCHNode<T>) returns (at: HandOff.At, item: Option<Item<T>>)
      requires Valid() && At(c, node) && !state.calls[c].isPut && state.calls[c].at == Holding
      modifies this`state, node
      ensures Valid() && WellFormed(old(state))
      ensures Step(old(state), if interrupted then Throw(c) else Meet(c)) == Some(state)
      ensures c < |state.calls| && at == state.calls[c].at && (at == Returned ==> item == state.calls[c].item)
      ensures at == if interrupted then Threw else if old(node.state) == FULL then Returned else Entering
      ensures at == Returned ==> item == old(node.slot) && node.state == EMPTY && node.slot == None
      ensures at == Threw ==> node.state == CANCELLED && node.slot == None
      ensures at == Entering ==> node.state == old(node.state) && node.slot == old(node.slot)
    {
      item := None;
      InvIsWellFormed(state);
      ActorIsOk(state, c);
      if interrupted {
        Abandon(c, node, Threw);
        return Threw, None;
      }
      if node.state == FULL {
        item := Get(c, node);
        return Returned, item;
      }
      Move(c, Entering);
      at := Entering;
    }

    /**
     * put at its own node: from the first lock, or from the end of a wait, to the next wait or the end of the loop. The
     * events are those of the machine, none if the call waits again.
     */
    method WaitPut(ghost c: nat, node: SYNCHNode<T>, wait: Wait) returns (at: HandOff.At, ghost es: seq<Event<T>>)
      requires Valid() && At(c, node) && state.calls[c].isPut && state.calls[c].at == Waiting
      modifies this`state, node
      ensures Valid() && Steps(old(state), es) == Some(state) && |es| <= 1
      ensures c < |state.calls| && at == state.calls[c].at
      ensures at == TimedOut <==> wait == Expired && old(node.state) == FULL && !interrupted
      ensures at == Waiting <==> wait != Expired && old(node.state) == FULL && !interrupted
      ensures at == Returned <==> old(node.state) == EMPTY && (wait != First || !interrupted)
      ensures at == Entering <==> old(node.state) == CANCELLED
      ensures at == Threw <==> interrupted && (old(node.state) == FULL || (old(node.state) == EMPTY && wait == First))
      ensures if at in {TimedOut, Threw} then node.state == CANCELLED && node.slot == None
              else node.state == old(node.state) && node.slot == old(node.slot)
    {
      hide Inv, CallOk, NodeOk, Holds, Agree, Cancel;
      InvIsWellFormed(state);
      ActorIsOk(state, c);
      WaitingStates(state, c);
      ghost var nd := state.nodes[state.calls[c].node];
      assert node.state == nd.state && node.slot == nd.slot by {
        AgreeAt(nodes, state.nodes, state.calls[c].node);
      }
      OneStep(state, TimeOut(c));
      OneStep(state, Throw(c));
      OneStep(state, Wake(c));
      if wait == Expired && node.state == FULL {
        es := [TimeOut(c)];
        at := if interrupted then Threw else TimedOut;
        Abandon(c, node, at);
      } else if wait != First && node.state == EMPTY {
        es := [Wake(c)];
        Move(c, Returned);
        at := Returned;
      } else if node.state == CANCELLED {
        es := [Wake(c)];
        Move(c, Entering);
        at := Entering;
      } else if interrupted {
        es := [Throw(c)];
        Abandon(c, node, Threw);
        at := Threw;
      } else if node.state == EMPTY {
        es := [Wake(c)];
        Move(c, Returned);
        at := Returned;
      } else {
        es, at := [], Waiting;
      }
    }

    /** take at its own node, likewise; the end of an expired wait looks for an item once more before it gives up */
    method WaitTake(ghost c: nat, node: SYNCHNode<T>, wait: Wait)
      returns (at: HandOff.At, item: Option<Item<T>>, ghost es: seq<Event<T>>)
      requires Valid() && At(c, node) && !state.calls[c].isPut && state.calls[c].at == Waiting
      modifies this`state, node
      ensures Valid() && Steps(old(state), es) == Some(state) && |es| <= 2
      ensures c < |state.calls| && at == state.calls[c].at && (at == Returned ==> item == state.calls[c].item)
      ensures at == TimedOut <==> wait == Expired && old(node.state) == EMPTY && !interrupted
      ensures at == Waiting <==> wait != Expired && old(node.state) == EMPTY && !interrupted
      ensures at == Returned <==> old(node.state) == FULL && (wait == Expired || !interrupted)
      ensures at == Entering <==> wait != Expired && old(node.state) == CANCELLED
      ensures at == Threw <==>
        if wait == Expired then old(node.state) == CANCELLED || (old(node.state) == EMPTY && interrupted)
        else old(node.state) != CANCELLED && interrupted
      ensures at == Returned ==> item == old(node.slot) && node.state == EMPTY && node.slot == None
      ensures at in {TimedOut, Threw} ==> node.state == CANCELLED && node.slot == None
      ensures at in {Waiting, Entering} ==> node.state == old(node.state) && node.slot == old(node.slot)
    {
      hide Inv, CallOk, NodeOk, Holds, Agree, Cancel, Collect;
      item := None;
      InvIsWellFormed(state);
      ActorIsOk(state, c);
      WaitingStates(state, c);
      ghost var nd := state.nodes[state.calls[c].node];
      assert node.state == nd.state && node.slot == nd.slot by {
        AgreeAt(nodes, state.nodes, state.calls[c].node);
      }
      OneStep(state, TimeOut(c));
      OneStep(state, Throw(c));
      OneStep(state, Wake(c));
      if wait == Expired && node.state == FULL {
        es := [Wake(c)];
        item := Get(c, node);
        at := Returned;
      } else if wait == Expired && node.state == EMPTY {
        es := [TimeOut(c)];
        at := if interrupted then Threw else TimedOut;
        Abandon(c, node, at);
      } else if wait == Expired {
        // the peer has cancelled the node, so there has been an interrupt
        es := [Wake(c), Throw(c)];
        WakeThenThrow(state, c);
        Move(c, Entering);
        ActorIsOk(state, c);
        Move(c, Threw);
        at := Threw;
      } else if node.state == CANCELLED {
        es := [Wake(c)];
        Move(c, Entering);
        at := Entering;
      } else if interrupted {
        es := [Throw(c)];
        Abandon(c, node, Threw);
        at := Threw;
      } else if node.state == FULL {
        es := [Wake(c)];
        item := Get(c, node);
        at := Returned;
      } else {
        es, at := [], Waiting;
      }
    }
  }

  /** Whether the call has just locked its node, or comes out of a wait that was notified or has expired */
  datatype Wait = First | Notified | Expired

  /** The machine after some steps */
  ghost function Steps<T>(s: State<T>, es: seq<Event<T>>): Option<State<T>>
    requires Inv(s)
    decreases |es|
  {
    if es == [] then Some(s)
    else
      InvIsWellFormed(s);
      match Step(s, es[0])
      case None => None
      case Some(t) => StepKeepsInv(s, es[0]); Steps(t, es[1..])
  }

  lemma OneStep<T>(s: State<T>, e: Event<T>)
    requires Inv(s) && WellFormed(s)
    ensures Steps(s, [e]) == Step(s, e)
  {
    hide Inv, Step;
    assert [e][1..] == [];
    if Step(s, e).Some? { StepKeepsInv(s, e); }
  }

  lemma WakeThenThrow<T>(s: State<T>, c: nat)
    requires Inv(s) && WellFormed(s) && c < |s.calls| && s.calls[c].at == Waiting
    requires s.nodes[s.calls[c].node].state == CANCELLED && s.interrupted
    ensures Steps(s, [Wake(c), Throw(c)]) == Some(SetAt(SetAt(s, c, Entering), c, Threw))
  {
    hide Inv;
    var t := SetAt(s, c, Entering);
    var es: seq<Event<T>> := [Wake(c), Throw(c)];
    assert Step(s, es[0]) == Some(t);
    StepKeepsInv(s, es[0]);
    InvIsWellFormed(t);
    OneStep(t, es[1]);
    assert es[1..] == [es[1]];
  }

  lemma AgreeAt<T>(nodes: seq<SYNCHNode<T>>, abs: seq<Node<T>>, n: nat)
    requires Agree(nodes, abs) && n < |nodes|
    ensures n < |abs| && nodes[n].state == abs[n].state && nodes[n].slot == abs[n].slot
  {
  }

  /** Only an interrupt cancels a node under the call that waits on it. */
  lemma WaitingStates<T>(s: State<T>, c: nat)
    requires Inv(s) && c < |s.calls| && s.calls[c].at == Waiting
    ensures s.calls[c].node < |s.nodes|
    ensures s.nodes[s.calls[c].node].state == CANCELLED ==> s.interrupted && s.nodes[s.calls[c].node].slot == None
  {
    assert CallOk(s, c);
    InvIsWellFormed(s);
  }
}
