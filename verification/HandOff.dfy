/** The hand-off protocol of DAF::SynchronousChannel.

    Every call of put or take is one entry of `State.calls`.  One step is one section of the source between acquiring
    and releasing a lock (the channel lock around the queues, or the lock of one node), so a run is a sequence of
    events in any order the locks allow.  Timeouts, wake-ups and the channel interrupt may strike wherever the source
    tests for them. */
module HandOff {
  import opened Options

  datatype NodeState = CANCELLED | EMPTY | FULL

  /** The item presented by one put, with the call that presents it: two puts of equal values stay apart. */
  datatype Item<+T> = Item(value: T, put: nat)

  /** A SYNCHNode: item_ (None stands for the default value) and state_.  `owner` is the call that waits on the node,
      `peer` the call that has dequeued it. */
  datatype Node<+T> = Node(slot: Option<Item<T>>, state: NodeState, owner: nat, peer: Option<nat>)

  datatype At = Entering | Holding | Waiting | Returned | TimedOut | Threw

  /** A put presents `item`; a take that has returned got `item`.  `node` is the node the call has dequeued (Holding),
      waits on (Waiting) or returned through. */
  datatype Call<+T> = Call(isPut: bool, at: At, node: nat, item: Option<Item<T>>)

  /** `delivered` is the history of hand-offs: from the put whose item was returned to the take that returned it. */
  datatype State<+T> = State(nodes: seq<Node<T>>, producers: seq<nat>, consumers: seq<nat>,
                             calls: seq<Call<T>>, delivered: map<nat, nat>, interrupted: bool)
  {
    /** The queue in which the calls opposite to a put (or to a take) wait. */
    function Opposite(isPut: bool): seq<nat> { if isPut then consumers else producers }
  }

  datatype Event<+T> =
    | StartPut(value: T)
    | StartTake
    | Interrupt
    | Enter(c: nat)    // the section under the channel lock
    | Meet(c: nat)     // a call locks the node it has dequeued
    | Wake(c: nat)     // a waiting call finds its node resolved
    | TimeOut(c: nat)  // a waiting call gives up
    | Throw(c: nat)    // a test of interrupted() succeeds

  function Init<T>(): State<T> {
    State([], [], [], [], map[], false)
  }

  // ----- nodes and queues

  function Cancelled<T>(nd: Node<T>): Node<T> {
    nd.(slot := None, state := CANCELLED)
  }

  function Filled<T>(nd: Node<T>, item: Option<Item<T>>): Node<T> {
    nd.(slot := item, state := FULL)
  }

  function Emptied<T>(nd: Node<T>): Node<T> {
    nd.(slot := None, state := EMPTY)
  }

  ghost predicate Bounded<T>(nodes: seq<Node<T>>, q: seq<nat>) {
    forall i :: 0 <= i < |q| ==> q[i] < |nodes|
  }

  /** What the scan of deque leaves of a queue: everything from the first node that is not cancelled. */
  function SkipCancelled<T>(nodes: seq<Node<T>>, q: seq<nat>): (rest: seq<nat>)
    requires Bounded(nodes, q)
    ensures Bounded(nodes, rest)
  {
    if q == [] then []
    else if nodes[q[0]].state == CANCELLED then SkipCancelled(nodes, q[1..])
    else q
  }

  lemma SkipCancelledIsOldest<T>(nodes: seq<Node<T>>, q: seq<nat>) returns (k: nat)
    requires Bounded(nodes, q)
    ensures k <= |q| && SkipCancelled(nodes, q) == q[k..]
    ensures forall i :: 0 <= i < k ==> nodes[q[i]].state == CANCELLED
    ensures k < |q| ==> nodes[q[k]].state != CANCELLED
  {
    if q == [] || nodes[q[0]].state != CANCELLED {
      k := 0;
    } else {
      k := SkipCancelledIsOldest(nodes, q[1..]);
      k := k + 1;
    }
  }

  // ----- what a call does in one section

  /** No live node awaits call c: it puts a node of its own in its queue and waits on it. */
  function Enqueue<T>(s: State<T>, c: nat): State<T>
    requires c < |s.calls|
  {
    var n, call := |s.nodes|, s.calls[c];
    var t := s.(calls := s.calls[c := call.(at := Waiting, node := n)]);
    if call.isPut then
      t.(nodes := s.nodes + [Node(call.item, FULL, c, None)], consumers := [], producers := s.producers + [n])
    else
      t.(nodes := s.nodes + [Node(None, EMPTY, c, None)], producers := [], consumers := s.consumers + [n])
  }

  /** Call c takes node n out of the opposite queue, of which `rest` remains. */
  function Dequeue<T>(s: State<T>, c: nat, n: nat, rest: seq<nat>): State<T>
    requires c < |s.calls| && n < |s.nodes|
  {
    var t := s.(nodes := s.nodes[n := s.nodes[n].(peer := Some(c))],
                calls := s.calls[c := s.calls[c].(at := Holding, node := n)]);
    if s.calls[c].isPut then t.(consumers := rest) else t.(producers := rest)
  }

  function SetAt<T>(s: State<T>, c: nat, at: At): State<T>
    requires c < |s.calls|
  {
    s.(calls := s.calls[c := s.calls[c].(at := at)])
  }

  /** put_item: the put c fills the node of a waiting take and returns. */
  function Fill<T>(s: State<T>, c: nat): State<T>
    requires c < |s.calls| && s.calls[c].node < |s.nodes|
  {
    var n := s.calls[c].node;
    SetAt(s, c, Returned).(nodes := s.nodes[n := Filled(s.nodes[n], s.calls[c].item)])
  }

  /** get_item: the take c empties the node and returns what it held. */
  function Collect<T>(s: State<T>, c: nat): State<T>
    requires c < |s.calls| && s.calls[c].node < |s.nodes| && s.nodes[s.calls[c].node].slot.Some?
  {
    var n := s.calls[c].node;
    var item := s.nodes[n].slot;
    s.(nodes := s.nodes[n := Emptied(s.nodes[n])],
       calls := s.calls[c := s.calls[c].(at := Returned, item := item)],
       delivered := s.delivered[item.value.put := c])
  }

  /** Call c cancels the node it has locked and leaves without success. */
  function Cancel<T>(s: State<T>, c: nat, at: At): State<T>
    requires c < |s.calls| && s.calls[c].node < |s.nodes|
  {
    var n := s.calls[c].node;
    SetAt(s, c, at).(nodes := s.nodes[n := Cancelled(s.nodes[n])])
  }

  // ----- the steps

  /** No dangling references, and a full node holds an item: what the steps need to be defined. */
  ghost predicate WellFormed<T>(s: State<T>) {
    && Bounded(s.nodes, s.producers)
    && Bounded(s.nodes, s.consumers)
    && (forall n :: 0 <= n < |s.nodes| ==> (s.nodes[n].state == FULL <==> s.nodes[n].slot.Some?))
    && (forall c :: 0 <= c < |s.calls| && s.calls[c].at in {Holding, Waiting} ==> s.calls[c].node < |s.nodes|)
  }

  function EnterStep<T>(s: State<T>, c: nat): Option<State<T>>
    requires WellFormed(s)
  {
    if c >= |s.calls| || s.calls[c].at != Entering then None
    else
      var rest := SkipCancelled(s.nodes, s.Opposite(s.calls[c].isPut));
      Some(if rest == [] then Enqueue(s, c) else Dequeue(s, c, rest[0], rest[1..]))
  }

  function MeetStep<T>(s: State<T>, c: nat): Option<State<T>>
    requires WellFormed(s)
  {
    if c >= |s.calls| || s.calls[c].at != Holding then None
    else
      var call, nd := s.calls[c], s.nodes[s.calls[c].node];
      if call.isPut && nd.state == EMPTY then Some(Fill(s, c))
      else if !call.isPut && nd.state == FULL then Some(Collect(s, c))
      else Some(SetAt(s, c, Entering))
  }

  function WakeStep<T>(s: State<T>, c: nat): Option<State<T>>
    requires WellFormed(s)
  {
    if c >= |s.calls| || s.calls[c].at != Waiting then None
    else
      var call, nd := s.calls[c], s.nodes[s.calls[c].node];
      if nd.state == CANCELLED then Some(SetAt(s, c, Entering))
      else if call.isPut && nd.state == EMPTY then Some(SetAt(s, c, Returned))
      else if !call.isPut && nd.state == FULL then Some(Collect(s, c))
      else None
  }

  function TimeOutStep<T>(s: State<T>, c: nat): Option<State<T>>
    requires WellFormed(s)
  {
    if c >= |s.calls| || s.calls[c].at != Waiting then None
    else if s.nodes[s.calls[c].node].state != (if s.calls[c].isPut then FULL else EMPTY) then None
    else Some(Cancel(s, c, if s.interrupted then Threw else TimedOut))
  }

  function ThrowStep<T>(s: State<T>, c: nat): Option<State<T>>
    requires WellFormed(s)
  {
    if c >= |s.calls| || !s.interrupted then None
    else
      match s.calls[c].at
      case Entering => Some(SetAt(s, c, Threw))
      case Holding => Some(Cancel(s, c, Threw))
      case Waiting => if s.nodes[s.calls[c].node].state == CANCELLED then None else Some(Cancel(s, c, Threw))
      case _ => None
  }

  /** The step of event e, or None when the source cannot take it in state s. */
  function Step<T>(s: State<T>, e: Event<T>): Option<State<T>>
    requires WellFormed(s)
  {
    match e
    case StartPut(v) => Some(s.(calls := s.calls + [Call(true, Entering, 0, Some(Item(v, |s.calls|)))]))
    case StartTake => Some(s.(calls := s.calls + [Call(false, Entering, 0, None)]))
    case Interrupt => Some(s.(interrupted := true))
    case Enter(c) => EnterStep(s, c)
    case Meet(c) => MeetStep(s, c)
    case Wake(c) => WakeStep(s, c)
    case TimeOut(c) => TimeOutStep(s, c)
    case Throw(c) => ThrowStep(s, c)
  }
}
