/** DAF::Rendezvous: a barrier at which every thread presents an item and returns one, after a command run by the last
    to arrive has rearranged them.

    The steps are those of Barrier, with the slots, and with the exceptional exits, which also take the thread out of
    count_.  `fn` is what the command does to the slots when it does not throw. */
module Rendezvous {
  import opened Counting
  import opened Options

  datatype At = AtGate | Passed | Inside | Normal | Broken | TimedOut | Threw | Refused

  /** `index` is the value of count_ at arrival, `arrival` the number of calls of generation `gen` that arrived before;
      `got` is what a call that returned normally returned. */
  datatype Call<+T> = Call(at: At, item: T, gen: nat, index: nat, arrival: nat, got: Option<T>)

  /** Histories: `members[g]` and `presented[g]` are the calls of generation g and their items in order of arrival,
      `runs` the generations whose command ran to completion, `dropped` the number of exceptional exits; `late` says
      that some call arrived in this generation after another had left, `struck` are the generations in which a wait
      has thrown after the command had run, `shrunk` says that some call found its slot gone. */
  datatype State<+T> = State(parties: nat, gate: int, count: nat, resets: int, synch: nat, broken: bool, triggered: bool,
                             slots: seq<T>, calls: seq<Call<T>>, members: seq<seq<nat>>, presented: seq<seq<T>>,
                             runs: seq<nat>, dropped: nat, late: bool, struck: set<nat>, shrunk: bool)

  datatype Event<+T> =
    | Start(item: T)
    | PassGate(c: nat)
    | Refuse(c: nat)
    | Arrive(c: nat, expired: bool, throws: bool)
    | Wake(c: nat, expired: bool, throws: bool)
    | WaitThrows(c: nat)

  predicate IsInside<T>(call: Call<T>) { call.at == Inside }
  predicate IsPassed<T>(call: Call<T>) { call.at == Passed }
  predicate IsMember<T>(call: Call<T>) { call.at !in {AtGate, Passed, Refused} }

  function InsideCount<T>(s: State<T>): nat { Count(s.calls, c => IsInside(c)) }
  function PassedCount<T>(s: State<T>): nat { Count(s.calls, c => IsPassed(c)) }

  function Init<T>(parties: nat): State<T> {
    State(parties, parties, 0, 0, 0, false, false, [], [], [[]], [[]], [], 0, false, {}, false)
  }

  function SetCall<T>(s: State<T>, c: nat, call: Call<T>): State<T>
    requires c < |s.calls|
  {
    s.(calls := s.calls[c := call])
  }

  /** The end of the call, from the look at its slot to the return. */
  function Leave<T>(s: State<T>, c: nat, timeout: bool): (r: State<T>)
    requires c < |s.calls|
    ensures r.parties == s.parties
  {
    var call := s.calls[c];
    var gone := call.index >= |s.slots|;
    var broken := s.broken || gone;
    var at := if timeout then TimedOut else if broken then Broken else Normal;
    var left := call.(at := at, got := if at == Normal then Some(s.slots[call.index]) else None);
    if s.resets - 1 != 0 then
      s.(calls := s.calls[c := left], broken := broken, shrunk := s.shrunk || gone, resets := s.resets - 1)
    else
      s.(calls := s.calls[c := left], broken := false, shrunk := s.shrunk || gone, resets := 0, slots := [],
         gate := s.gate + s.count, triggered := false, synch := s.synch + 1, count := 0,
         members := s.members + [[]], presented := s.presented + [[]], late := false)
  }

  /** The handler of an exception inside the loop. */
  function ThrowOut<T>(s: State<T>, c: nat): (t: State<T>)
    requires c < |s.calls| && s.count > 0
    ensures t.parties == s.parties
  {
    s.(calls := s.calls[c := s.calls[c].(at := Threw)],
       broken := true, resets := s.resets - 1, count := s.count - 1, dropped := s.dropped + 1)
  }

  /** A wait that throws after the command has run splits its generation. */
  function Strike<T>(s: State<T>): State<T> { s.(struck := if s.triggered then s.struck + {s.synch} else s.struck) }

  function BreakUp<T>(s: State<T>): State<T> { s.(broken := true) }

  function Trip<T>(fn: seq<T> -> seq<T>, s: State<T>): State<T> {
    s.(slots := fn(s.slots), triggered := true, runs := s.runs + [s.synch])
  }

  /** The loop of the source, from its test to the next wait or to the end of the call. */
  function Loop<T>(fn: seq<T> -> seq<T>, s: State<T>, c: nat, expired: bool, throws: bool): (t: State<T>)
    requires c < |s.calls| && s.parties > 0
    ensures t.parties == s.parties
  {
    if s.broken || s.triggered then Leave(s, c, false)
    else if s.count != s.parties then
      if expired then Leave(BreakUp(s), c, true) else s
    else if throws then ThrowOut(s, c)
    else Leave(Trip(fn, s), c, false)
  }

  function Join<T>(s: State<T>, c: nat): (t: State<T>)
    requires c < |s.calls| && |s.members| == |s.presented| == s.synch + 1
    ensures t.parties == s.parties
  {
    var call, g := s.calls[c], s.synch;
    s.(calls := s.calls[c := Call(Inside, call.item, g, s.count, |s.members[g]|, None)],
       count := s.count + 1, resets := s.count + 1, slots := s.slots + [call.item],
       members := s.members[g := s.members[g] + [c]], presented := s.presented[g := s.presented[g] + [call.item]],
       late := s.late || s.count > s.resets)
  }

  function Step<T>(fn: seq<T> -> seq<T>, s: State<T>, e: Event<T>): (r: Option<State<T>>)
    requires s.parties > 0
    ensures r.Some? ==> r.value.parties == s.parties
  {
    match e
    case Start(item) => Some(s.(calls := s.calls + [Call(AtGate, item, 0, 0, 0, None)]))
    case PassGate(c) =>
      if c < |s.calls| && s.calls[c].at == AtGate && s.gate > 0
      then Some(s.(calls := s.calls[c := s.calls[c].(at := Passed)], gate := s.gate - 1)) else None
    case Refuse(c) =>
      if c < |s.calls| && s.calls[c].at == AtGate then Some(SetCall(s, c, s.calls[c].(at := Refused))) else None
    case Arrive(c, expired, throws) =>
      if c < |s.calls| && s.calls[c].at == Passed && |s.members| == |s.presented| == s.synch + 1
      then Some(Loop(fn, Join(s, c), c, expired, throws)) else None
    case Wake(c, expired, throws) =>
      if c < |s.calls| && s.calls[c].at == Inside then Some(Loop(fn, s, c, expired, throws)) else None
    case WaitThrows(c) =>
      if c < |s.calls| && s.calls[c].at == Inside && s.count > 0 then Some(ThrowOut(Strike(s), c)) else None
  }

  // ----- the invariant

  ghost predicate NumbersOk<T>(s: State<T>) {
    && s.parties > 0 && s.gate >= 0
    && s.gate + PassedCount(s) + s.count + s.dropped == s.parties
    && InsideCount(s) <= s.resets <= s.count
    && (s.resets == InsideCount(s) <==> !s.late)
    && |s.members| == |s.presented| == s.synch + 1
    && s.count <= |s.members[s.synch]|
    && (!s.broken && !s.triggered ==> s.count == InsideCount(s) == |s.members[s.synch]|)
    && (s.triggered ==>
          s.count + s.dropped == s.parties == |s.members[s.synch]| && !s.late
          && (s.synch !in s.struck ==> InsideCount(s) > 0))
    && (s.dropped == 0 ==> s.struck == {} && (s.broken && !s.late ==> InsideCount(s) > 0))
  }

  ghost predicate RunsOk<T>(fn: seq<T> -> seq<T>, s: State<T>) {
    && (s.triggered <==> s.synch in s.runs)
    && (forall g :: g in s.struck ==> g in s.runs)
    && (forall g :: g in s.runs ==>
          g <= s.synch && g < |s.members| && |s.members[g]| == s.parties && multiset(s.runs)[g] == 1)
    && |s.presented| == s.synch + 1
    && s.slots == (if s.triggered then fn(s.presented[s.synch]) else s.presented[s.synch])
  }

  ghost predicate CallOk<T>(fn: seq<T> -> seq<T>, s: State<T>, c: nat)
    requires c < |s.calls|
  {
    var call := s.calls[c];
    IsMember(call) ==>
      && call.gen <= s.synch && call.gen < |s.members| && call.gen < |s.presented|
      && call.arrival < |s.members[call.gen]| && s.members[call.gen][call.arrival] == c
      && call.index <= call.arrival
      && (call.gen in s.runs || (call.gen == s.synch && !s.broken) ==> call.index == call.arrival)
      && (call.at == Inside ==> call.gen == s.synch)
      && (call.gen == s.synch && !s.broken && !s.triggered ==> call.at == Inside)
      && (call.at == Inside ==> call.got == None)
      && (call.at == Normal ==>
            && call.gen in s.runs
            && call.index < |fn(s.presented[call.gen])| && call.got == Some(fn(s.presented[call.gen])[call.index]))
  }

  ghost predicate MemberOk<T>(s: State<T>, g: nat, i: nat)
    requires g < |s.members| && i < |s.members[g]|
  {
    var c := s.members[g][i];
    && c < |s.calls| && IsMember(s.calls[c]) && s.calls[c].gen == g && s.calls[c].arrival == i
    && g < |s.presented| && |s.presented[g]| == |s.members[g]| && s.presented[g][i] == s.calls[c].item
  }

  ghost predicate Inv<T>(fn: seq<T> -> seq<T>, s: State<T>) {
    && NumbersOk(s)
    && RunsOk(fn, s)
    && (forall g :: 0 <= g < |s.members| ==> g < |s.presented| && |s.presented[g]| == |s.members[g]|)
    && (forall c :: 0 <= c < |s.calls| ==> CallOk(fn, s, c))
    && (forall g, i :: 0 <= g < |s.members| && 0 <= i < |s.members[g]| ==> MemberOk(s, g, i))
  }

  lemma CountsOfUpdate<T>(s: State<T>, c: nat, call: Call<T>)
    requires c < |s.calls|
    ensures InsideCount(SetCall(s, c, call)) == InsideCount(s) - One(IsInside(s.calls[c])) + One(IsInside(call))
    ensures PassedCount(SetCall(s, c, call)) == PassedCount(s) - One(IsPassed(s.calls[c])) + One(IsPassed(call))
  {
    CountUpdate(s.calls, c, call, c => IsInside(c));
    CountUpdate(s.calls, c, call, c => IsPassed(c));
  }

  lemma SomeInside<T>(s: State<T>, c: nat)
    requires c < |s.calls|
    ensures s.calls[c].at == Inside ==> InsideCount(s) > 0
    ensures s.calls[c].at == Passed ==> PassedCount(s) > 0
  {
    if s.calls[c].at == Inside { CountPositive(s.calls, c, c => IsInside(c)); }
    if s.calls[c].at == Passed { CountPositive(s.calls, c, c => IsPassed(c)); }
  }

  lemma InsideIsCounted<T>(fn: seq<T> -> seq<T>, s: State<T>, c: nat)
    requires Inv(fn, s) && c < |s.calls| && s.calls[c].at == Inside
    ensures s.count > 0 && s.calls[c].got == None
  {
    SomeInside(s, c);
    assert CallOk(fn, s, c);
  }

  lemma JoinKeepsInv<T>(fn: seq<T> -> seq<T>, s: State<T>, c: nat)
    requires Inv(fn, s) && c < |s.calls| && s.calls[c].at == Passed
    ensures Inv(fn, Join(s, c))
  {
    var t := Join(s, c);
    SomeInside(s, c);
    CountsOfUpdate(s, c, t.calls[c]);
    assert InsideCount(t) == InsideCount(SetCall(s, c, t.calls[c]));
    assert PassedCount(t) == PassedCount(SetCall(s, c, t.calls[c]));
    forall d | 0 <= d < |t.calls| ensures CallOk(fn, t, d) { assert CallOk(fn, s, d); }
    forall g, i | 0 <= g < |t.members| && 0 <= i < |t.members[g]| ensures MemberOk(t, g, i) {
      if g < s.synch || i < |s.members[g]| { assert MemberOk(s, g, i); }
    }
  }

  ghost predicate MayLeave<T>(s: State<T>, c: nat, timeout: bool) {
    c < |s.calls| && s.calls[c].at == Inside && (s.broken || s.triggered) && (timeout ==> !s.triggered)
  }

  lemma LeaveKeepsNumbers<T>(fn: seq<T> -> seq<T>, s: State<T>, c: nat, timeout: bool)
    requires NumbersOk(s) && RunsOk(fn, s) && MayLeave(s, c, timeout)
    ensures var t := Leave(s, c, timeout);
            && NumbersOk(t) && RunsOk(fn, t)
            && (t.synch > s.synch ==> t.synch == s.synch + 1 && InsideCount(t) == 0)
  {
    var t := Leave(s, c, timeout);
    CountsOfUpdate(s, c, t.calls[c]);
    assert InsideCount(t) == InsideCount(SetCall(s, c, t.calls[c]));
    assert PassedCount(t) == PassedCount(SetCall(s, c, t.calls[c]));
  }

  lemma LeaverStaysOk<T>(fn: seq<T> -> seq<T>, s: State<T>, c: nat, timeout: bool)
    requires NumbersOk(s) && RunsOk(fn, s) && MayLeave(s, c, timeout) && CallOk(fn, s, c)
    ensures c < |Leave(s, c, timeout).calls| && CallOk(fn, Leave(s, c, timeout), c)
  {
  }

  lemma OtherStaysOk<T>(fn: seq<T> -> seq<T>, s: State<T>, c: nat, timeout: bool, d: nat)
    requires NumbersOk(s) && RunsOk(fn, s) && MayLeave(s, c, timeout) && d != c && d < |s.calls| && CallOk(fn, s, d)
    ensures d < |Leave(s, c, timeout).calls| && CallOk(fn, Leave(s, c, timeout), d)
  {
    LeaveKeepsNumbers(fn, s, c, timeout);
    SomeInside(Leave(s, c, timeout), d);
    hide NumbersOk, RunsOk;
  }

  lemma LeaveKeepsCall<T>(fn: seq<T> -> seq<T>, s: State<T>, c: nat, timeout: bool, d: nat)
    requires NumbersOk(s) && RunsOk(fn, s) && MayLeave(s, c, timeout)
    requires CallOk(fn, s, c) && d < |s.calls| && CallOk(fn, s, d)
    ensures d < |Leave(s, c, timeout).calls| && CallOk(fn, Leave(s, c, timeout), d)
  {
    hide NumbersOk, RunsOk, CallOk, Leave;
    if d == c { LeaverStaysOk(fn, s, c, timeout); } else { OtherStaysOk(fn, s, c, timeout, d); }
  }

  lemma LeaveKeepsMember<T>(s: State<T>, c: nat, timeout: bool, g: nat, i: nat)
    requires MayLeave(s, c, timeout) && g < |s.members| && i < |s.members[g]| && MemberOk(s, g, i)
    ensures var t := Leave(s, c, timeout);
      |s.members| <= |t.members| && |s.presented| <= |t.presented| && t.members[g] == s.members[g] && MemberOk(t, g, i)
  {
  }

  /** The members and the items presented stay, but for a new generation without any. */
  lemma LeaveKeepsMembers<T>(s: State<T>, c: nat, timeout: bool)
    requires c < |s.calls| && |s.members| == |s.presented|
    ensures var t := Leave(s, c, timeout);
      && |t.calls| == |s.calls| && |t.members| == |t.presented| >= |s.members|
      && forall g :: 0 <= g < |t.members| ==>
           if g < |s.members| then t.members[g] == s.members[g] && t.presented[g] == s.presented[g]
           else t.members[g] == [] && t.presented[g] == []
  {
  }

  lemma LeaveKeepsInv<T>(fn: seq<T> -> seq<T>, s: State<T>, c: nat, timeout: bool)
    requires Inv(fn, s) && MayLeave(s, c, timeout)
    ensures Inv(fn, Leave(s, c, timeout))
  {
    assert CallOk(fn, s, c) && |s.members| == |s.presented|;
    hide CallOk, NumbersOk, RunsOk, MemberOk, Leave;
    var t := Leave(s, c, timeout);
    LeaveKeepsNumbers(fn, s, c, timeout);
    LeaveKeepsMembers(s, c, timeout);
    forall d | 0 <= d < |t.calls| ensures CallOk(fn, t, d) {
      assert CallOk(fn, s, d);
      LeaveKeepsCall(fn, s, c, timeout, d);
    }
    forall g, i | 0 <= g < |t.members| && 0 <= i < |t.members[g]| ensures MemberOk(t, g, i) {
      assert MemberOk(s, g, i);
      LeaveKeepsMember(s, c, timeout, g, i);
    }
  }

  lemma ThrowOutKeepsInv<T>(fn: seq<T> -> seq<T>, s: State<T>, c: nat)
    requires Inv(fn, s) && c < |s.calls| && s.calls[c].at == Inside && s.count > 0
    ensures Inv(fn, ThrowOut(Strike(s), c))
  {
    assert CallOk(fn, s, c);
    var t := ThrowOut(Strike(s), c);
    CountsOfUpdate(s, c, t.calls[c]);
    assert InsideCount(t) == InsideCount(SetCall(s, c, t.calls[c]));
    assert PassedCount(t) == PassedCount(SetCall(s, c, t.calls[c]));
    forall d | 0 <= d < |t.calls| ensures CallOk(fn, t, d) { assert CallOk(fn, s, d); }
    forall g, i | 0 <= g < |t.members| && 0 <= i < |t.members[g]| ensures MemberOk(t, g, i) {
      assert MemberOk(s, g, i);
    }
  }

  lemma BreakKeepsInv<T>(fn: seq<T> -> seq<T>, s: State<T>)
    requires Inv(fn, s) && !s.triggered && InsideCount(s) > 0
    ensures Inv(fn, s.(broken := true))
  {
    var t := s.(broken := true);
    forall d | 0 <= d < |s.calls| ensures CallOk(fn, t, d) { assert CallOk(fn, s, d); }
    forall g, i | 0 <= g < |s.members| && 0 <= i < |s.members[g]| ensures MemberOk(t, g, i) {
      assert MemberOk(s, g, i);
    }
  }

  lemma TripKeepsInv<T>(fn: seq<T> -> seq<T>, s: State<T>)
    requires Inv(fn, s) && !s.broken && !s.triggered && s.count == s.parties
    ensures Inv(fn, Trip(fn, s))
  {
    var t := Trip(fn, s);
    forall g | g in t.runs ensures g <= t.synch && |t.members[g]| == t.parties && multiset(t.runs)[g] == 1 {
      assert g in s.runs || g == s.synch;
    }
    forall d | 0 <= d < |s.calls| ensures CallOk(fn, t, d) { assert CallOk(fn, s, d); }
    forall g, i | 0 <= g < |s.members| && 0 <= i < |s.members[g]| ensures MemberOk(t, g, i) {
      assert MemberOk(s, g, i);
    }
  }

  lemma LoopKeepsInv<T>(fn: seq<T> -> seq<T>, s: State<T>, c: nat, expired: bool, throws: bool)
    requires Inv(fn, s) && c < |s.calls| && s.calls[c].at == Inside
    ensures Inv(fn, Loop(fn, s, c, expired, throws))
  {
    if s.broken || s.triggered {
      LeaveKeepsInv(fn, s, c, false);
    } else if s.count != s.parties {
      if expired {
        SomeInside(s, c);
        BreakKeepsInv(fn, s);
        LeaveKeepsInv(fn, s.(broken := true), c, true);
      }
    } else if throws {
      assert Strike(s) == s;
      ThrowOutKeepsInv(fn, s, c);
    } else {
      TripKeepsInv(fn, s);
      LeaveKeepsInv(fn, Trip(fn, s), c, false);
    }
  }

  lemma GateKeepsInv<T>(fn: seq<T> -> seq<T>, s: State<T>, t: State<T>, c: nat, call: Call<T>)
    requires Inv(fn, s) && c < |s.calls| && !IsMember(call) && !IsMember(s.calls[c])
    requires t == SetCall(s, c, call).(gate := t.gate)
    requires 0 <= t.gate == s.gate + One(IsPassed(s.calls[c])) - One(IsPassed(call))
    ensures Inv(fn, t)
  {
    CountsOfUpdate(s, c, call);
    assert InsideCount(t) == InsideCount(SetCall(s, c, call)) && PassedCount(t) == PassedCount(SetCall(s, c, call));
    forall d | 0 <= d < |t.calls| ensures CallOk(fn, t, d) { assert CallOk(fn, s, d); }
    forall g, i | 0 <= g < |t.members| && 0 <= i < |t.members[g]| ensures MemberOk(t, g, i) {
      assert MemberOk(s, g, i);
    }
  }

  lemma StartKeepsInv<T>(fn: seq<T> -> seq<T>, s: State<T>, item: T)
    requires Inv(fn, s)
    ensures Inv(fn, s.(calls := s.calls + [Call(AtGate, item, 0, 0, 0, None)]))
  {
    var call: Call<T> := Call(AtGate, item, 0, 0, 0, None);
    var t := s.(calls := s.calls + [call]);
    CountAppend(s.calls, call, c => IsInside(c));
    CountAppend(s.calls, call, c => IsPassed(c));
    forall d | 0 <= d < |t.calls| ensures CallOk(fn, t, d) { if d < |s.calls| { assert CallOk(fn, s, d); } }
    forall g, i | 0 <= g < |t.members| && 0 <= i < |t.members[g]| ensures MemberOk(t, g, i) {
      assert MemberOk(s, g, i);
    }
  }

  lemma ArriveKeepsInv<T>(fn: seq<T> -> seq<T>, s: State<T>, c: nat, expired: bool, throws: bool)
    requires Inv(fn, s) && c < |s.calls| && s.calls[c].at == Passed
    ensures Inv(fn, Loop(fn, Join(s, c), c, expired, throws))
  {
    JoinKeepsInv(fn, s, c);
    LoopKeepsInv(fn, Join(s, c), c, expired, throws);
  }

  lemma GateStepKeepsInv<T>(fn: seq<T> -> seq<T>, s: State<T>, e: Event<T>)
    requires Inv(fn, s) && Step(fn, s, e).Some? && (e.PassGate? || e.Refuse?)
    ensures Inv(fn, Step(fn, s, e).value)
  {
    GateKeepsInv(fn, s, Step(fn, s, e).value, e.c, s.calls[e.c].(at := if e.PassGate? then Passed else Refused));
  }

  lemma StepKeepsInv<T>(fn: seq<T> -> seq<T>, s: State<T>, e: Event<T>)
    requires Inv(fn, s) && Step(fn, s, e).Some?
    ensures Inv(fn, Step(fn, s, e).value)
  {
    match e
    case Start(item) => StartKeepsInv(fn, s, item);
    case PassGate(_) => GateStepKeepsInv(fn, s, e);
    case Refuse(_) => GateStepKeepsInv(fn, s, e);
    case Arrive(c, expired, throws) => ArriveKeepsInv(fn, s, c, expired, throws);
    case Wake(c, expired, throws) => LoopKeepsInv(fn, s, c, expired, throws);
    case WaitThrows(c) => ThrowOutKeepsInv(fn, s, c);
  }

  /** The state after a run, or None when some event could not happen where it stands. */
  function Run<T>(fn: seq<T> -> seq<T>, parties: nat, es: seq<Event<T>>): (r: Option<State<T>>)
    requires parties > 0
    ensures r.Some? ==> r.value.parties == parties
  {
    if es == [] then Some(Init(parties))
    else
      match Run(fn, parties, es[..|es| - 1])
      case None => None
      case Some(s) => Step(fn, s, es[|es| - 1])
  }

  lemma {:induction false} RunKeepsInv<T>(fn: seq<T> -> seq<T>, parties: nat, es: seq<Event<T>>)
    requires parties > 0 && Run(fn, parties, es).Some?
    ensures Inv(fn, Run(fn, parties, es).value)
  {
    if es != [] {
      RunKeepsInv(fn, parties, es[..|es| - 1]);
      StepKeepsInv(fn, Run(fn, parties, es[..|es| - 1]).value, es[|es| - 1]);
    }
  }

  // ----- over every run, whatever the command does

  /** Gate permits, threads between the gate and the lock, count_, and the permits dropped by exceptional exits add up
      to the number of parties. */
  lemma GateIsConserved<T>(fn: seq<T> -> seq<T>, parties: nat, es: seq<Event<T>>)
    requires parties > 0 && Run(fn, parties, es).Some?
    ensures var s := Run(fn, parties, es).value; s.gate >= 0 && s.gate + PassedCount(s) + s.count + s.dropped == parties
  {
    RunKeepsInv(fn, parties, es);
  }

  /** Generations are isolated, broken or not: resets_ is never less than the number of threads inside, every thread
      inside belongs to the current generation (so it tests the flags and indexes the slots of its own), and a step
      that ends a generation leaves none of it inside. */
  lemma GenerationsAreIsolated<T>(fn: seq<T> -> seq<T>, parties: nat, es: seq<Event<T>>, e: Event<T>, c: nat)
    requires parties > 0 && Run(fn, parties, es).Some? && Step(fn, Run(fn, parties, es).value, e).Some?
    ensures var s := Run(fn, parties, es).value; InsideCount(s) <= s.resets
    ensures var s := Run(fn, parties, es).value; c < |s.calls| && s.calls[c].at == Inside ==> s.calls[c].gen == s.synch
    ensures var s := Run(fn, parties, es).value;
            var t := Step(fn, s, e).value;
            t.synch != s.synch ==> t.synch == s.synch + 1 && (c < |t.calls| ==> t.calls[c].at != Inside)
  {
    var s := Run(fn, parties, es).value;
    var t := Step(fn, s, e).value;
    RunKeepsInv(fn, parties, es);
    if c < |s.calls| { assert CallOk(fn, s, c); }
    StepEndsGeneration(fn, s, e);
    if c < |t.calls| { SomeInside(t, c); }
  }

  lemma LoopEndsGeneration<T>(fn: seq<T> -> seq<T>, s: State<T>, c: nat, expired: bool, throws: bool)
    requires Inv(fn, s) && c < |s.calls| && s.calls[c].at == Inside
    ensures var t := Loop(fn, s, c, expired, throws);
            t.synch != s.synch ==> t.synch == s.synch + 1 && InsideCount(t) == 0
  {
    if s.broken || s.triggered {
      LeaveKeepsNumbers(fn, s, c, false);
    } else if s.count != s.parties {
      SomeInside(s, c);
      BreakKeepsInv(fn, s);
      LeaveKeepsNumbers(fn, s.(broken := true), c, true);
    } else {
      TripKeepsInv(fn, s);
      LeaveKeepsNumbers(fn, Trip(fn, s), c, false);
    }
  }

  lemma StepEndsGeneration<T>(fn: seq<T> -> seq<T>, s: State<T>, e: Event<T>)
    requires Inv(fn, s) && Step(fn, s, e).Some?
    ensures var t := Step(fn, s, e).value; t.synch != s.synch ==> t.synch == s.synch + 1 && InsideCount(t) == 0
  {
    match e
    case Arrive(c, expired, throws) => JoinKeepsInv(fn, s, c); LoopEndsGeneration(fn, Join(s, c), c, expired, throws);
    case Wake(c, expired, throws) => LoopEndsGeneration(fn, s, c, expired, throws);
    case _ =>
  }

  lemma DroppedKeepsCount<T>(fn: seq<T> -> seq<T>, s: State<T>)
    requires Inv(fn, s)
    ensures s.count + s.dropped <= s.parties
  {
  }

  lemma LoopKeepsRuns<T>(fn: seq<T> -> seq<T>, s: State<T>, c: nat, expired: bool, throws: bool)
    requires c < |s.calls| && s.parties > 0 && s.count < s.parties
    ensures var t := Loop(fn, s, c, expired, throws); t.dropped == s.dropped && t.runs == s.runs
  {
  }

  /** A permit dropped by an exceptional exit never comes back, and with one permit short the parties can never be
      complete again: no later command runs. */
  lemma DroppedPermitEndsAllExchange<T>(fn: seq<T> -> seq<T>, parties: nat, es: seq<Event<T>>, e: Event<T>)
    requires parties > 0 && Run(fn, parties, es).Some? && Step(fn, Run(fn, parties, es).value, e).Some?
    requires Run(fn, parties, es).value.dropped > 0
    ensures var s := Run(fn, parties, es).value;
            var t := Step(fn, s, e).value;
            t.dropped >= s.dropped && t.runs == s.runs
  {
    hide Step;
    RunKeepsInv(fn, parties, es);
    DroppedPermitStopsCommands(fn, Run(fn, parties, es).value, e);
  }

  // ----- which generations end, and whether a command can still run

  /** Ready for a new generation. */
  predicate Armed<T>(s: State<T>) { s.count == 0 && s.resets == 0 && !s.broken && !s.triggered && s.slots == [] }

  /** Whether some call of the generation has arrived after another had left, the one of this event included. */
  predicate LateAt<T>(s: State<T>, e: Event<T>) { s.late || (e.Arrive? && s.count > s.resets) }

  /** Whichever event leaves nobody inside re-arms the rendezvous if and only if no call of the generation came late
      and it did not end with an exception of the command or the wait.  Then every permit is back but those dropped
      before. */
  lemma LastToLeaveRearms<T>(fn: seq<T> -> seq<T>, parties: nat, es: seq<Event<T>>, e: Event<T>)
    requires parties > 0 && Run(fn, parties, es).Some? && Step(fn, Run(fn, parties, es).value, e).Some?
    requires e.Arrive? || e.Wake? || e.WaitThrows?
    requires InsideCount(Step(fn, Run(fn, parties, es).value, e).value) == 0
    ensures var s := Run(fn, parties, es).value;
            var t := Step(fn, s, e).value;
            && e.c < |t.calls|
            && (Armed(t) <==> !LateAt(s, e) && t.calls[e.c].at != Threw)
            && (Armed(t) ==> t.synch == s.synch + 1 && t.gate + PassedCount(t) == parties - s.dropped)
            && (!Armed(t) ==> t.synch == s.synch)
  {
    RunKeepsInv(fn, parties, es);
    var s := Run(fn, parties, es).value;
    StepKeepsInv(fn, s, e);
    match e
    case Arrive(c, expired, throws) => JoinKeepsInv(fn, s, c); LoopLeavesLast(fn, Join(s, c), c, expired, throws);
    case Wake(c, expired, throws) => LoopLeavesLast(fn, s, c, expired, throws);
    case WaitThrows(c) =>
  }

  lemma LoopLeavesLast<T>(fn: seq<T> -> seq<T>, s: State<T>, c: nat, expired: bool, throws: bool)
    requires Inv(fn, s) && c < |s.calls| && s.calls[c].at == Inside
    requires InsideCount(Loop(fn, s, c, expired, throws)) == 0
    ensures var t := Loop(fn, s, c, expired, throws);
            && |t.calls| == |s.calls|
            && (Armed(t) <==> !s.late && t.calls[c].at != Threw)
            && (Armed(t) ==> t.synch == s.synch + 1 && t.dropped == s.dropped) && (!Armed(t) ==> t.synch == s.synch)
  {
    hide CallOk, MemberOk, Leave, Join;
    SomeInside(s, c);
    if s.broken || s.triggered {
      LastLeaves(s, c, false);
    } else if s.count != s.parties {
      if expired {
        CountsAlike(s, s.(broken := true));
        LastLeaves(s.(broken := true), c, true);
      }
    } else if !throws {
      CountsAlike(s, Trip(fn, s));
      LastLeaves(Trip(fn, s), c, false);
    }
  }

  lemma CountsAlike<T>(s: State<T>, t: State<T>)
    requires s.calls == t.calls
    ensures InsideCount(s) == InsideCount(t)
  {
  }

  lemma LastLeaves<T>(s: State<T>, c: nat, timeout: bool)
    requires c < |s.calls| && s.calls[c].at == Inside && InsideCount(Leave(s, c, timeout)) == 0
    requires (s.broken || s.triggered) && InsideCount(s) <= s.resets && (s.resets == InsideCount(s) <==> !s.late)
    ensures var t := Leave(s, c, timeout);
            && |t.calls| == |s.calls| && t.calls[c].at != Threw && t.dropped == s.dropped
            && (Armed(t) <==> !s.late)
            && t.synch == s.synch + One(Armed(t))
  {
    var t := Leave(s, c, timeout);
    assert |t.calls| == |s.calls|;
    CountsOfUpdate(s, c, t.calls[c]);
    assert InsideCount(t) == InsideCount(SetCall(s, c, t.calls[c]));
  }

  /** A generation with a late arrival never ends, and its command never runs. */
  lemma LateGenerationNeverEnds<T>(fn: seq<T> -> seq<T>, s: State<T>, e: Event<T>)
    requires Inv(fn, s) && s.late && Step(fn, s, e).Some?
    ensures var t := Step(fn, s, e).value; t.late && t.synch == s.synch && t.runs == s.runs
  {
    match e
    case Arrive(c, _, _) => JoinKeepsInv(fn, s, c); SomeInside(Join(s, c), c);
    case Wake(c, _, _) => SomeInside(s, c);
    case _ =>
  }

  /** A dropped permit stays dropped, and no command runs any more. */
  lemma DroppedPermitStopsCommands<T>(fn: seq<T> -> seq<T>, s: State<T>, e: Event<T>)
    requires Inv(fn, s) && s.dropped > 0 && Step(fn, s, e).Some?
    ensures var t := Step(fn, s, e).value; t.dropped >= s.dropped && t.runs == s.runs
  {
    DroppedKeepsCount(fn, s);
    match e
    case Arrive(c, expired, throws) =>
      JoinKeepsInv(fn, s, c);
      DroppedKeepsCount(fn, Join(s, c));
      LoopKeepsRuns(fn, Join(s, c), c, expired, throws);
    case Wake(c, expired, throws) => LoopKeepsRuns(fn, s, c, expired, throws);
    case _ =>
  }

  /** The state some events later, or None. */
  function RunFrom<T>(fn: seq<T> -> seq<T>, s: State<T>, es: seq<Event<T>>): Option<State<T>>
    requires s.parties > 0
    decreases |es|
  {
    if es == [] then Some(s)
    else
      match Step(fn, s, es[0])
      case None => None
      case Some(t) => RunFrom(fn, t, es[1..])
  }

  lemma RunFromStep<T>(fn: seq<T> -> seq<T>, s: State<T>, e: Event<T>, es: seq<Event<T>>)
    requires s.parties > 0 && Step(fn, s, e).Some?
    ensures RunFrom(fn, s, [e] + es) == RunFrom(fn, Step(fn, s, e).value, es)
  {
    assert ([e] + es)[1..] == es;
  }

  /** Some later command can run. */
  ghost predicate CanTrip<T(!new)>(fn: seq<T> -> seq<T>, s: State<T>)
    requires s.parties > 0
  {
    exists es :: RunFrom(fn, s, es).Some? && |RunFrom(fn, s, es).value.runs| > |s.runs|
  }

  lemma CanTripAfter<T(!new)>(fn: seq<T> -> seq<T>, s: State<T>, e: Event<T>)
    requires s.parties > 0 && Step(fn, s, e).Some? && |Step(fn, s, e).value.runs| >= |s.runs|
    requires CanTrip(fn, Step(fn, s, e).value)
    ensures CanTrip(fn, s)
  {
    hide Step;
    var t := Step(fn, s, e).value;
    var es :| RunFrom(fn, t, es).Some? && |RunFrom(fn, t, es).value.runs| > |t.runs|;
    RunFromStep(fn, s, e, es);
  }

  lemma TripsNow<T(!new)>(fn: seq<T> -> seq<T>, s: State<T>, e: Event<T>)
    requires s.parties > 0 && Step(fn, s, e).Some? && |Step(fn, s, e).value.runs| > |s.runs|
    ensures CanTrip(fn, s)
  {
    hide Step;
    RunFromStep(fn, s, e, []);
  }

  lemma {:induction false} NothingTrips<T>(fn: seq<T> -> seq<T>, s: State<T>, es: seq<Event<T>>)
    requires s.parties > 0 && Inv(fn, s) && (s.late || s.dropped > 0) && RunFrom(fn, s, es).Some?
    ensures RunFrom(fn, s, es).value.runs == s.runs
    decreases |es|
  {
    hide Inv, Step;
    if es != [] {
      if s.late { LateGenerationNeverEnds(fn, s, es[0]); } else { DroppedPermitStopsCommands(fn, s, es[0]); }
      StepKeepsInv(fn, s, es[0]);
      NothingTrips(fn, Step(fn, s, es[0]).value, es[1..]);
    }
  }

  /** Neither a late arrival nor a dropped permit so far */
  predicate Sound<T>(s: State<T>) { !s.late && s.dropped == 0 && s.parties > 0 }

  /** The next arrival in an open generation completes it or leaves it open, with one call more. */
  lemma ArrivalCompletesOrStaysOpen<T>(fn: seq<T> -> seq<T>, s: State<T>, c: nat)
    requires Inv(fn, s) && Sound(s) && !s.broken && !s.triggered && s.count < s.parties
    requires c < |s.calls| && s.calls[c].at == Passed
    ensures var r := Step(fn, s, Arrive(c, false, false));
            && r.Some? && Inv(fn, r.value)
            && if s.count + 1 == s.parties then |r.value.runs| > |s.runs|
               else
                 && Sound(r.value) && !r.value.broken && !r.value.triggered
                 && r.value.count == s.count + 1 && r.value.runs == s.runs
  {
    StepKeepsInv(fn, s, Arrive(c, false, false));
  }

  /** A new call passes the gate while there is a permit. */
  lemma AnotherPassesTheGate<T>(fn: seq<T> -> seq<T>, s: State<T>, item: T)
    requires Inv(fn, s) && Sound(s) && s.gate > 0
    ensures var r := Step(fn, s, Start(item));
            && r.Some? && Inv(fn, r.value) && r.value.runs == s.runs
            && var u := Step(fn, r.value, PassGate(|s.calls|));
            && u.Some? && Inv(fn, u.value) && PassedCount(u.value) > 0
            && u.value == s.(calls := u.value.calls, gate := s.gate - 1)
  {
    var n, t := |s.calls|, Step(fn, s, Start(item)).value;
    StepKeepsInv(fn, s, Start(item));
    StepKeepsInv(fn, t, PassGate(n));
    SomeInside(Step(fn, t, PassGate(n)).value, n);
    hide Inv;
  }

  lemma TripsWhenComplete<T(!new)>(fn: seq<T> -> seq<T>, s: State<T>)
    requires Inv(fn, s) && Sound(s) && !s.broken && !s.triggered && s.count == s.parties
    ensures CanTrip(fn, s)
  {
    hide CanTrip, CallOk, MemberOk, RunsOk;
    var c := CountWitness(s.calls, c => IsInside(c));
    TripsNow(fn, s, Wake(c, false, false));
  }

  /** An open generation can be completed: the calls that have passed the gate arrive, then others come. */
  lemma {:induction false} OpenCanTrip<T(!new)>(fn: seq<T> -> seq<T>, s: State<T>, item: T)
    requires Inv(fn, s) && Sound(s) && !s.broken && !s.triggered
    ensures CanTrip(fn, s)
    decreases s.parties - s.count, One(PassedCount(s) == 0)
  {
    hide CanTrip, CallOk, MemberOk, RunsOk, Step;
    if s.count == s.parties {
      TripsWhenComplete(fn, s);
    } else if PassedCount(s) > 0 {
      var c := CountWitness(s.calls, c => IsPassed(c));
      OpenCanTripAt(fn, s, c, item);
    } else {
      AnotherPassesTheGate(fn, s, item);
      var t := Step(fn, s, Start(item)).value;
      OpenCanTrip(fn, Step(fn, t, PassGate(|s.calls|)).value, item);
      CanTripAfter(fn, t, PassGate(|s.calls|));
      CanTripAfter(fn, s, Start(item));
    }
  }

  lemma {:induction false} OpenCanTripAt<T(!new)>(fn: seq<T> -> seq<T>, s: State<T>, c: nat, item: T)
    requires Inv(fn, s) && Sound(s) && !s.broken && !s.triggered && s.count < s.parties
    requires c < |s.calls| && s.calls[c].at == Passed
    ensures CanTrip(fn, s)
    decreases s.parties - s.count, 0, 0
  {
    hide Inv, CanTrip, Step;
    var e := Arrive(c, false, false);
    ArrivalCompletesOrStaysOpen(fn, s, c);
    if s.count + 1 == s.parties {
      TripsNow(fn, s, e);
    } else {
      OpenCanTrip(fn, Step(fn, s, e).value, item);
      CanTripAfter(fn, s, e);
    }
  }

  /** A call that wakes up in a closed generation leaves it, and the last one re-arms. */
  lemma OneLeaves<T>(fn: seq<T> -> seq<T>, s: State<T>, c: nat)
    requires Inv(fn, s) && Sound(s) && (s.broken || s.triggered) && c < |s.calls| && s.calls[c].at == Inside
    ensures var r := Step(fn, s, Wake(c, false, false));
            && r.Some? && Inv(fn, r.value) && Sound(r.value) && r.value.runs == s.runs
            && InsideCount(r.value) == InsideCount(s) - 1
            && (InsideCount(r.value) > 0 <==> r.value.broken || r.value.triggered)
  {
    var t := Step(fn, s, Wake(c, false, false)).value;
    StepKeepsInv(fn, s, Wake(c, false, false));
    CountsOfUpdate(s, c, t.calls[c]);
    assert InsideCount(t) == InsideCount(SetCall(s, c, t.calls[c]));
    hide CallOk, MemberOk, RunsOk;
  }

  /** A closed one can be left by everybody inside, and ends. */
  lemma {:induction false} ClosedCanTrip<T(!new)>(fn: seq<T> -> seq<T>, s: State<T>, item: T)
    requires Inv(fn, s) && Sound(s) && (s.broken || s.triggered) && InsideCount(s) > 0
    ensures CanTrip(fn, s)
    decreases InsideCount(s)
  {
    hide Inv, CanTrip, Step;
    var c := CountWitness(s.calls, c => IsInside(c));
    OneLeaves(fn, s, c);
    var t := Step(fn, s, Wake(c, false, false)).value;
    if InsideCount(t) > 0 { ClosedCanTrip(fn, t, item); } else { OpenCanTrip(fn, t, item); }
    CanTripAfter(fn, s, Wake(c, false, false));
  }

  /** In every reachable state, a command can still run if and only if no permit has been dropped and no call of the
      current generation came late. */
  lemma CanTripIff<T(!new)>(fn: seq<T> -> seq<T>, parties: nat, es: seq<Event<T>>, item: T)
    requires parties > 0 && Run(fn, parties, es).Some?
    ensures var s := Run(fn, parties, es).value; CanTrip(fn, s) <==> s.dropped == 0 && !s.late
  {
    RunKeepsInv(fn, parties, es);
    var s := Run(fn, parties, es).value;
    if s.late || s.dropped > 0 {
      forall later | RunFrom(fn, s, later).Some? ensures RunFrom(fn, s, later).value.runs == s.runs {
        NothingTrips(fn, s, later);
      }
    } else if s.broken || s.triggered {
      ClosedCanTrip(fn, s, item);
    } else {
      OpenCanTrip(fn, s, item);
    }
  }

  // ----- the two ways to that end are taken

  lemma RunStep<T>(fn: seq<T> -> seq<T>, parties: nat, es: seq<Event<T>>, e: Event<T>, s: State<T>, t: State<T>)
    requires parties > 0 && Run(fn, parties, es) == Some(s) && s.parties > 0 && Step(fn, s, e) == Some(t)
    ensures Run(fn, parties, es + [e]) == Some(t)
  {
    assert (es + [e])[..|es + [e]| - 1] == es;
  }

  /** The first generation, with the calls at the given places and all items 7: the first `count` of them have
      arrived. */
  function First(parties: nat, gate: nat, count: nat, resets: nat, broken: bool, ats: seq<At>, late: bool): State<int>
    requires count <= |ats|
  {
    State(parties, gate, count, resets, 0, broken, false, seq(count, i => 7),
          seq(|ats|, i requires 0 <= i < |ats| => FirstCall(ats[i], if i < count then i else 0)),
          [seq(count, i => i)], [seq(count, i => 7)], [], 0, late, {}, false)
  }

  function FirstCall(at: At, index: nat): Call<int> { Call(at, 7, 0, index, index, None) }

  lemma FirstStep(fn: seq<int> -> seq<int>, es: seq<Event<int>>, s: State<int>, e: Event<int>, t: State<int>)
      returns (es': seq<Event<int>>)
    requires s.parties > 0 && Run(fn, s.parties, es) == Some(s) && Step(fn, s, e).Some?
    requires |t.members| == 1 && |t.presented| == 1
    requires var r := Step(fn, s, e).value;
      && r.(calls := [], members := [], presented := [], slots := [])
         == t.(calls := [], members := [], presented := [], slots := [])
      && |r.calls| == |t.calls| && (forall i :: 0 <= i < |t.calls| ==> r.calls[i] == t.calls[i])
      && |r.members| == 1 && r.members[0] == t.members[0] && |r.presented| == 1 && r.presented[0] == t.presented[0]
      && r.slots == t.slots
    ensures es' == es + [e] && Run(fn, t.parties, es') == Some(t)
  {
    hide Step, Run;
    var r := Step(fn, s, e).value;
    assert r.calls == t.calls && r.members == t.members && r.presented == t.presented;
    RunStep(fn, s.parties, es, e, s, t);
    es' := es + [e];
  }

  lemma InitIsFirst(fn: seq<int> -> seq<int>, parties: nat)
    requires parties > 0
    ensures Run(fn, parties, []) == Some(Init(parties))
    ensures Init(parties) == First(parties, parties, 0, 0, false, [], false)
  {
    var s := First(parties, parties, 0, 0, false, [], false);
    assert Init<int>(parties).members[0] == s.members[0] && Init<int>(parties).presented[0] == s.presented[0];
  }

  /** With one party, a command that throws drops the only permit. */
  lemma ThrowDropsPermit(fn: seq<int> -> seq<int>) returns (es: seq<Event<int>>)
    ensures Run(fn, 1, es).Some? && Run(fn, 1, es).value.dropped > 0
  {
    hide Run;
    var s1, s2 := First(1, 1, 0, 0, false, [AtGate], false), First(1, 0, 0, 0, false, [Passed], false);
    es := [];
    InitIsFirst(fn, 1);
    es := FirstStep(fn, es, First(1, 1, 0, 0, false, [], false), Start(7), s1);
    es := FirstStep(fn, es, s1, PassGate(0), s2);
    RunStep(fn, 1, es, Arrive(0, false, true), s2, Step(fn, s2, Arrive(0, false, true)).value);
    es := es + [Arrive(0, false, true)];
  }

  lemma ThreePassTheGate(fn: seq<int> -> seq<int>) returns (es: seq<Event<int>>)
    ensures Run(fn, 3, es) == Some(First(3, 0, 0, 0, false, [Passed, Passed, Passed], false))
  {
    hide Run;
    var s0, s1 := First(3, 3, 0, 0, false, [], false), First(3, 3, 0, 0, false, [AtGate], false);
    var s2, s3 := First(3, 2, 0, 0, false, [Passed], false), First(3, 2, 0, 0, false, [Passed, AtGate], false);
    var s4 := First(3, 1, 0, 0, false, [Passed, Passed], false);
    var s5 := First(3, 1, 0, 0, false, [Passed, Passed, AtGate], false);
    es := [];
    InitIsFirst(fn, 3);
    es := FirstStep(fn, es, s0, Start(7), s1);
    es := FirstStep(fn, es, s1, PassGate(0), s2);
    es := FirstStep(fn, es, s2, Start(7), s3);
    es := FirstStep(fn, es, s3, PassGate(1), s4);
    es := FirstStep(fn, es, s4, Start(7), s5);
    es := FirstStep(fn, es, s5, PassGate(2), First(3, 0, 0, 0, false, [Passed, Passed, Passed], false));
  }

  lemma TwoArrive(fn: seq<int> -> seq<int>) returns (es: seq<Event<int>>)
    ensures Run(fn, 3, es) == Some(First(3, 0, 2, 2, false, [Inside, Inside, Passed], false))
  {
    hide Run;
    var s0 := First(3, 0, 0, 0, false, [Passed, Passed, Passed], false);
    var s1 := First(3, 0, 1, 1, false, [Inside, Passed, Passed], false);
    es := ThreePassTheGate(fn);
    es := FirstStep(fn, es, s0, Arrive(0, false, false), s1);
    es := FirstStep(fn, es, s1, Arrive(1, false, false), First(3, 0, 2, 2, false, [Inside, Inside, Passed], false));
  }

  /** With three parties, a call that arrives after another has timed out comes late, and no permit is dropped. */
  lemma LateArrivalStrands(fn: seq<int> -> seq<int>) returns (es: seq<Event<int>>)
    ensures Run(fn, 3, es).Some? && Run(fn, 3, es).value.late && Run(fn, 3, es).value.dropped == 0
  {
    hide Run;
    var s0 := First(3, 0, 2, 2, false, [Inside, Inside, Passed], false);
    var s1 := First(3, 0, 2, 1, true, [TimedOut, Inside, Passed], false);
    es := TwoArrive(fn);
    es := FirstStep(fn, es, s0, Wake(0, true, false), s1);
    RunStep(fn, 3, es, Arrive(2, false, false), s1, Step(fn, s1, Arrive(2, false, false)).value);
    es := es + [Arrive(2, false, false)];
  }

  // ----- what a call returns

  /** A call that returns normally gets from its slot what the command put there, given the items of its own
      generation. */
  lemma NormalReturnIsOwnSlot<T>(fn: seq<T> -> seq<T>, parties: nat, es: seq<Event<T>>, c: nat)
    requires parties > 0 && Run(fn, parties, es).Some?
    requires var s := Run(fn, parties, es).value; c < |s.calls| && s.calls[c].at == Normal
    ensures var s := Run(fn, parties, es).value;
            var g, i := s.calls[c].gen, s.calls[c].index;
            && g < |s.presented| && g < |s.members| && |s.presented[g]| == |s.members[g]| == parties && i < parties
            && s.members[g][i] == c && s.presented[g][i] == s.calls[c].item
            && i < |fn(s.presented[g])| && s.calls[c].got == Some(fn(s.presented[g])[i])
  {
    var s := Run(fn, parties, es).value;
    RunKeepsInv(fn, parties, es);
    assert CallOk(fn, s, c);
    assert MemberOk(s, s.calls[c].gen, s.calls[c].index);
  }

  lemma LeaveKeepsSlots<T>(fn: seq<T> -> seq<T>, s: State<T>, c: nat, timeout: bool)
    requires Inv(fn, s) && MayLeave(s, c, timeout) && (forall x :: |fn(x)| >= |x|)
    ensures Leave(s, c, timeout).shrunk == s.shrunk
  {
    assert CallOk(fn, s, c);
    assert MemberOk(s, s.calls[c].gen, s.calls[c].arrival);
  }

  lemma LoopKeepsSlots<T>(fn: seq<T> -> seq<T>, s: State<T>, c: nat, expired: bool, throws: bool)
    requires Inv(fn, s) && c < |s.calls| && s.calls[c].at == Inside && (forall x :: |fn(x)| >= |x|)
    ensures Loop(fn, s, c, expired, throws).shrunk == s.shrunk
  {
    if s.broken || s.triggered {
      LeaveKeepsSlots(fn, s, c, false);
    } else if s.count != s.parties {
      SomeInside(s, c);
      BreakKeepsInv(fn, s);
      LeaveKeepsSlots(fn, s.(broken := true), c, true);
    } else {
      TripKeepsInv(fn, s);
      LeaveKeepsSlots(fn, Trip(fn, s), c, false);
    }
  }

  lemma StepKeepsSlots<T>(fn: seq<T> -> seq<T>, s: State<T>, e: Event<T>)
    requires Inv(fn, s) && s.parties > 0 && Step(fn, s, e).Some? && (forall x :: |fn(x)| >= |x|)
    ensures Step(fn, s, e).value.shrunk == s.shrunk
  {
    hide Inv, Loop;
    match e
    case Arrive(c, expired, throws) => JoinKeepsInv(fn, s, c); LoopKeepsSlots(fn, Join(s, c), c, expired, throws);
    case Wake(c, expired, throws) => LoopKeepsSlots(fn, s, c, expired, throws);
    case _ =>
  }

  /** A command that does not shorten the slots never takes a slot away from a call. */
  lemma {:induction false} SlotsSuffice<T>(fn: seq<T> -> seq<T>, parties: nat, es: seq<Event<T>>)
    requires parties > 0 && Run(fn, parties, es).Some? && (forall x :: |fn(x)| >= |x|)
    ensures !Run(fn, parties, es).value.shrunk
  {
    hide Inv, Step;
    if es != [] {
      var s := Run(fn, parties, es[..|es| - 1]).value;
      RunKeepsInv(fn, parties, es[..|es| - 1]);
      SlotsSuffice(fn, parties, es[..|es| - 1]);
      StepKeepsSlots(fn, s, es[|es| - 1]);
    }
  }

  // ----- the rotator

  /** RendezvousRotator: the first item goes to the end. */
  function Rotate<T>(items: seq<T>): seq<T> {
    if items == [] then [] else items[1..] + [items[0]]
  }

  lemma NextPlace(i: nat, n: nat)
    requires i < n
    ensures (i + 1) % n == if i + 1 < n then i + 1 else 0
  {
  }

  lemma RotateAt<T>(items: seq<T>, i: nat)
    requires i < |items|
    ensures |Rotate(items)| == |items| && Rotate(items)[i] == items[(i + 1) % |items|]
  {
    NextPlace(i, |items|);
  }

  /** The item presented at place i of a generation that tripped was presented by the call with index i. */
  lemma PresenterOf<T>(fn: seq<T> -> seq<T>, s: State<T>, g: nat, i: nat) returns (d: nat)
    requires Inv(fn, s) && g in s.runs && i < s.parties
    ensures g < |s.presented| && |s.presented[g]| == s.parties
    ensures d < |s.calls| && IsMember(s.calls[d]) && s.calls[d].gen == g && s.calls[d].index == i
    ensures s.presented[g][i] == s.calls[d].item
  {
    d := s.members[g][i];
    assert MemberOk(s, g, i) && CallOk(fn, s, d);
  }

  /** With the rotator, a call with arrival index i that returns normally gets the item that the call with index i + 1
      (modulo the number of parties) of the same generation presented. */
  lemma RotatorExchanges<T>(parties: nat, es: seq<Event<T>>, c: nat) returns (d: nat)
    requires parties > 0 && Run(Rotate<T>, parties, es).Some?
    requires var s := Run(Rotate<T>, parties, es).value; c < |s.calls| && s.calls[c].at == Normal
    ensures var s := Run(Rotate<T>, parties, es).value;
            && d < |s.calls| && IsMember(s.calls[d]) && s.calls[d].gen == s.calls[c].gen
            && s.calls[d].index == (s.calls[c].index + 1) % parties
            && s.calls[c].got == Some(s.calls[d].item)
  {
    hide Run, MemberOk, NumbersOk, RunsOk, Rotate;
    var s := Run(Rotate<T>, parties, es).value;
    RunKeepsInv(Rotate<T>, parties, es);
    NormalReturnIsOwnSlot(Rotate<T>, parties, es, c);
    assert CallOk(Rotate<T>, s, c);
    var g, i := s.calls[c].gen, s.calls[c].index;
    RotateAt(s.presented[g], i);
    d := PresenterOf(Rotate<T>, s, g, (i + 1) % parties);
  }

  // ----- all or none

  /** The command of generation g left a slot for every party. */
  predicate Enough<T>(fn: seq<T> -> seq<T>, s: State<T>, g: nat) {
    g < |s.presented| && |fn(s.presented[g])| >= s.parties
  }

  /** The command is run by the last to arrive, which has the last index: if the command left too few slots the
      generation is broken at once, and otherwise it is broken only by a wait that throws. */
  predicate FlagsOk<T>(s: State<T>) {
    && (!s.broken && !s.triggered ==> s.count < s.parties)
    && (s.triggered ==> (s.broken <==> |s.slots| < s.parties || s.synch in s.struck))
  }

  ghost predicate EndOk<T>(fn: seq<T> -> seq<T>, s: State<T>, c: nat)
    requires c < |s.calls|
  {
    var call := s.calls[c];
    IsMember(call) && call.gen in s.runs ==>
      if Enough(fn, s, call.gen) then call.gen in s.struck || call.at in {Inside, Normal} else call.at != Normal
  }

  /** The calls end as the command and the waits have it. */
  ghost predicate EndsOk<T>(fn: seq<T> -> seq<T>, s: State<T>) {
    FlagsOk(s) && forall c :: 0 <= c < |s.calls| ==> EndOk(fn, s, c)
  }

  lemma JoinKeepsEnds<T>(fn: seq<T> -> seq<T>, s: State<T>, c: nat)
    requires Inv(fn, s) && EndsOk(fn, s) && c < |s.calls| && s.calls[c].at == Passed
    ensures var t := Join(s, c);
      && (FlagsOk(t) || (!t.broken && !t.triggered && t.calls[c].index == t.count - 1))
      && forall d :: 0 <= d < |t.calls| ==> EndOk(fn, t, d)
  {
    SomeInside(s, c);
    var t := Join(s, c);
    forall d | 0 <= d < |t.calls| ensures EndOk(fn, t, d) { assert EndOk(fn, s, d) && CallOk(fn, s, d); }
  }

  /** Call d, when c leaves; where the command left too few slots, c finds the generation broken or its own slot gone.
      */
  lemma LeaveKeepsEnd<T>(fn: seq<T> -> seq<T>, s: State<T>, c: nat, timeout: bool, d: nat)
    requires RunsOk(fn, s) && NumbersOk(s) && MayLeave(s, c, timeout)
    requires CallOk(fn, s, c) && d < |s.calls| && CallOk(fn, s, d) && EndOk(fn, s, d)
    requires s.triggered && |s.slots| < s.parties ==> s.broken || s.calls[c].index >= |s.slots|
    requires s.triggered && |s.slots| >= s.parties ==> (s.broken <==> s.synch in s.struck)
    ensures d < |Leave(s, c, timeout).calls| && EndOk(fn, Leave(s, c, timeout), d)
  {
  }

  lemma LeaveKeepsFlags<T>(fn: seq<T> -> seq<T>, s: State<T>, c: nat, timeout: bool)
    requires RunsOk(fn, s) && NumbersOk(s) && MayLeave(s, c, timeout) && CallOk(fn, s, c)
    requires s.triggered && |s.slots| < s.parties ==> s.broken || s.calls[c].index >= |s.slots|
    requires s.triggered && |s.slots| >= s.parties ==> (s.broken <==> s.synch in s.struck)
    ensures FlagsOk(Leave(s, c, timeout))
  {
  }

  lemma LeaveKeepsEnds<T>(fn: seq<T> -> seq<T>, s: State<T>, c: nat, timeout: bool)
    requires Inv(fn, s) && MayLeave(s, c, timeout) && forall d :: 0 <= d < |s.calls| ==> EndOk(fn, s, d)
    requires s.triggered && |s.slots| < s.parties ==> s.broken || s.calls[c].index >= |s.slots|
    requires s.triggered && |s.slots| >= s.parties ==> (s.broken <==> s.synch in s.struck)
    ensures EndsOk(fn, Leave(s, c, timeout))
  {
    assert CallOk(fn, s, c) && |s.members| == |s.presented|;
    hide CallOk, NumbersOk, RunsOk, MemberOk, Leave, EndOk, FlagsOk;
    LeaveKeepsFlags(fn, s, c, timeout);
    LeaveKeepsMembers(s, c, timeout);
    forall d | 0 <= d < |Leave(s, c, timeout).calls| ensures EndOk(fn, Leave(s, c, timeout), d) {
      assert CallOk(fn, s, d) && EndOk(fn, s, d);
      LeaveKeepsEnd(fn, s, c, timeout, d);
    }
  }

  lemma ThrowOutKeepsEnds<T>(fn: seq<T> -> seq<T>, s: State<T>, c: nat)
    requires Inv(fn, s) && c < |s.calls| && s.calls[c].at == Inside && s.count > 0
    requires forall d :: 0 <= d < |s.calls| ==> EndOk(fn, s, d)
    ensures EndsOk(fn, ThrowOut(Strike(s), c))
  {
    var t := ThrowOut(Strike(s), c);
    assert CallOk(fn, s, c);
    forall d | 0 <= d < |t.calls| ensures EndOk(fn, t, d) { assert EndOk(fn, s, d); }
  }

  lemma TripKeepsEnds<T>(fn: seq<T> -> seq<T>, s: State<T>)
    requires Inv(fn, s) && !s.broken && !s.triggered && forall d :: 0 <= d < |s.calls| ==> EndOk(fn, s, d)
    ensures forall d :: 0 <= d < |s.calls| ==> EndOk(fn, Trip(fn, s), d)
    ensures s.synch !in s.struck
  {
    forall d | 0 <= d < |s.calls| ensures EndOk(fn, Trip(fn, s), d) {
      assert EndOk(fn, s, d) && CallOk(fn, s, d);
    }
  }

  lemma BreakKeepsEnds<T>(fn: seq<T> -> seq<T>, s: State<T>)
    requires forall d :: 0 <= d < |s.calls| ==> EndOk(fn, s, d)
    ensures forall d :: 0 <= d < |s.calls| ==> EndOk(fn, BreakUp(s), d)
  {
    forall d | 0 <= d < |s.calls| ensures EndOk(fn, BreakUp(s), d) { assert EndOk(fn, s, d); }
  }

  /** The loop, for a call that has found its generation closed or open, or has completed it. */
  lemma LoopKeepsEnds<T>(fn: seq<T> -> seq<T>, s: State<T>, c: nat, expired: bool, throws: bool)
    requires Inv(fn, s) && c < |s.calls| && s.calls[c].at == Inside
    requires forall d :: 0 <= d < |s.calls| ==> EndOk(fn, s, d)
    requires FlagsOk(s) || (!s.broken && !s.triggered && s.calls[c].index == s.count - 1)
    ensures EndsOk(fn, Loop(fn, s, c, expired, throws))
  {
    InsideIsCounted(fn, s, c);
    DroppedKeepsCount(fn, s);
    hide CallOk, MemberOk, NumbersOk, RunsOk, Leave, EndOk;
    if s.broken || s.triggered {
      LeaveKeepsEnds(fn, s, c, false);
    } else if s.count != s.parties {
      if expired {
        SomeInside(s, c);
        BreakKeepsInv(fn, s);
        BreakKeepsEnds(fn, s);
        LeaveKeepsEnds(fn, BreakUp(s), c, true);
      }
    } else if throws {
      assert Strike(s) == s;
      ThrowOutKeepsEnds(fn, s, c);
    } else {
      TripKeepsInv(fn, s);
      TripKeepsEnds(fn, s);
      LeaveKeepsEnds(fn, Trip(fn, s), c, false);
    }
  }

  /** What happens at the gate concerns no member. */
  lemma GateStepKeepsEnds<T>(fn: seq<T> -> seq<T>, s: State<T>, e: Event<T>)
    requires Inv(fn, s) && EndsOk(fn, s) && Step(fn, s, e).Some? && (e.Start? || e.PassGate? || e.Refuse?)
    ensures EndsOk(fn, Step(fn, s, e).value)
  {
    var t := Step(fn, s, e).value;
    hide Inv;
    forall d | 0 <= d < |t.calls| ensures EndOk(fn, t, d) { if d < |s.calls| { assert EndOk(fn, s, d); } }
  }

  lemma StepKeepsEnds<T>(fn: seq<T> -> seq<T>, s: State<T>, e: Event<T>)
    requires Inv(fn, s) && EndsOk(fn, s) && Step(fn, s, e).Some?
    ensures EndsOk(fn, Step(fn, s, e).value)
  {
    hide Inv, EndOk, FlagsOk, Loop;
    match e
    case Start(_) => GateStepKeepsEnds(fn, s, e);
    case PassGate(_) => GateStepKeepsEnds(fn, s, e);
    case Refuse(_) => GateStepKeepsEnds(fn, s, e);
    case Arrive(c, expired, throws) =>
      JoinKeepsInv(fn, s, c);
      JoinKeepsEnds(fn, s, c);
      LoopKeepsEnds(fn, Join(s, c), c, expired, throws);
    case Wake(c, expired, throws) => LoopKeepsEnds(fn, s, c, expired, throws);
    case WaitThrows(c) => ThrowOutKeepsEnds(fn, s, c);
  }

  predicate HasEnded<T>(s: State<T>, g: nat, c: nat, normally: bool) {
    && c < |s.calls| && IsMember(s.calls[c]) && s.calls[c].gen == g && s.calls[c].at != Inside
    && (normally <==> s.calls[c].at == Normal)
  }

  /** Some call of generation g has returned normally, or has ended otherwise. */
  ghost predicate SomeEnded<T>(s: State<T>, g: nat, normally: bool) {
    exists c: nat :: HasEnded(s, g, c, normally)
  }

  /** The call that ran a command has returned normally if there was a slot for it, and one whose wait threw has not. */
  ghost predicate Endings<T>(fn: seq<T> -> seq<T>, s: State<T>) {
    && (forall g: nat :: g in s.runs && Enough(fn, s, g) ==> SomeEnded(s, g, true))
    && (forall g: nat :: g in s.struck ==> SomeEnded(s, g, false))
  }

  lemma LoopTouchesOne<T>(fn: seq<T> -> seq<T>, s: State<T>, c: nat, expired: bool, throws: bool, d: nat)
    requires c < |s.calls| && d < |s.calls| && c != d && s.parties > 0
    ensures var t := Loop(fn, s, c, expired, throws); d < |t.calls| && t.calls[d] == s.calls[d]
  {
  }

  /** A call that has ended is touched by no step. */
  lemma EndedStays<T>(fn: seq<T> -> seq<T>, s: State<T>, e: Event<T>, g: nat, normally: bool)
    requires s.parties > 0 && Step(fn, s, e).Some? && SomeEnded(s, g, normally)
    ensures SomeEnded(Step(fn, s, e).value, g, normally)
  {
    var d: nat :| HasEnded(s, g, d, normally);
    hide Loop;
    match e {
      case Arrive(c, expired, throws) => LoopTouchesOne(fn, Join(s, c), c, expired, throws, d);
      case Wake(c, expired, throws) => LoopTouchesOne(fn, s, c, expired, throws, d);
      case _ =>
    }
    assert HasEnded(Step(fn, s, e).value, g, d, normally);
  }

  lemma LoopKeepsPresented<T>(fn: seq<T> -> seq<T>, s: State<T>, c: nat, expired: bool, throws: bool, g: nat)
    requires c < |s.calls| && s.parties > 0 && g < |s.presented|
    ensures var t := Loop(fn, s, c, expired, throws); g < |t.presented| && t.presented[g] == s.presented[g]
  {
  }

  /** Nobody joins a generation whose command has run. */
  lemma RunKeepsPresented<T>(fn: seq<T> -> seq<T>, s: State<T>, e: Event<T>, g: nat)
    requires Inv(fn, s) && Step(fn, s, e).Some? && g in s.runs
    ensures Enough(fn, s, g) <==> Enough(fn, Step(fn, s, e).value, g)
  {
    if e.Arrive? && e.c < |s.calls| { SomeInside(s, e.c); }
    assert g < |s.presented| && (e.Arrive? ==> g < s.synch);
    hide Inv, Loop;
    match e
    case Arrive(c, expired, throws) => LoopKeepsPresented(fn, Join(s, c), c, expired, throws, g);
    case Wake(c, expired, throws) => LoopKeepsPresented(fn, s, c, expired, throws, g);
    case _ =>
  }

  lemma LoopEndings<T>(fn: seq<T> -> seq<T>, s: State<T>, c: nat, expired: bool, throws: bool)
    requires c < |s.calls| && s.parties > 0 && s.calls[c].at == Inside && s.calls[c].gen == s.synch
    requires |s.presented| == s.synch + 1
    requires !s.broken && !s.triggered ==> s.calls[c].index < s.parties && s.slots == s.presented[s.synch]
    ensures var t := Loop(fn, s, c, expired, throws);
            && t.struck == s.struck
            && (t.runs == s.runs
                || (t.runs == s.runs + [s.synch] && (Enough(fn, t, s.synch) ==> SomeEnded(t, s.synch, true))))
  {
    var t := Loop(fn, s, c, expired, throws);
    LoopKeepsPresented(fn, s, c, expired, throws, s.synch);
    if t.runs != s.runs && Enough(fn, t, s.synch) { assert HasEnded(t, s.synch, c, true); }
  }

  lemma StrikeEndings<T>(s: State<T>, c: nat)
    requires c < |s.calls| && s.calls[c].at == Inside && s.calls[c].gen == s.synch && s.count > 0
    ensures var t := ThrowOut(Strike(s), c);
            && t.runs == s.runs
            && (t.struck == s.struck || (t.struck == s.struck + {s.synch} && SomeEnded(t, s.synch, false)))
  {
    assert HasEnded(ThrowOut(Strike(s), c), s.synch, c, false);
  }

  /** What the endings are told about the current generation and the calls inside */
  lemma InsideFacts<T>(fn: seq<T> -> seq<T>, s: State<T>, c: nat)
    requires Inv(fn, s) && c < |s.calls| && s.calls[c].at == Inside
    ensures s.calls[c].gen == s.synch && |s.presented| == s.synch + 1 && s.parties > 0
    ensures !s.broken && !s.triggered ==> s.calls[c].index < s.parties && s.slots == s.presented[s.synch]
  {
    assert CallOk(fn, s, c);
  }

  /** A step runs at most one command, by a call that then returns normally if there is a slot for it, and strikes a
      generation by a call that throws. */
  lemma StepEndings<T>(fn: seq<T> -> seq<T>, s: State<T>, e: Event<T>)
    requires Inv(fn, s) && Step(fn, s, e).Some?
    ensures var t := Step(fn, s, e).value;
            && (t.runs == s.runs
                || (t.runs == s.runs + [s.synch] && (Enough(fn, t, s.synch) ==> SomeEnded(t, s.synch, true))))
            && (t.struck == s.struck || (t.struck == s.struck + {s.synch} && SomeEnded(t, s.synch, false)))
  {
    hide Inv, Loop, ThrowOut, Strike, SomeEnded, Enough;
    match e
    case Arrive(c, expired, throws) =>
      JoinKeepsInv(fn, s, c);
      InsideFacts(fn, Join(s, c), c);
      LoopEndings(fn, Join(s, c), c, expired, throws);
    case Wake(c, expired, throws) => InsideFacts(fn, s, c); LoopEndings(fn, s, c, expired, throws);
    case WaitThrows(c) => InsideFacts(fn, s, c); StrikeEndings(s, c);
    case _ =>
  }

  lemma {:induction false} RunKeepsEnds<T>(fn: seq<T> -> seq<T>, parties: nat, es: seq<Event<T>>)
    requires parties > 0 && Run(fn, parties, es).Some?
    ensures EndsOk(fn, Run(fn, parties, es).value) && Endings(fn, Run(fn, parties, es).value)
  {
    hide Inv, Step, SomeEnded, Enough, EndOk;
    if es != [] {
      var s, e := Run(fn, parties, es[..|es| - 1]).value, es[|es| - 1];
      var t := Step(fn, s, e).value;
      RunKeepsInv(fn, parties, es[..|es| - 1]);
      RunKeepsEnds(fn, parties, es[..|es| - 1]);
      StepKeepsEnds(fn, s, e);
      StepEndings(fn, s, e);
      forall g: nat | g in t.runs && Enough(fn, t, g) ensures SomeEnded(t, g, true) {
        if g in s.runs { RunKeepsPresented(fn, s, e, g); EndedStays(fn, s, e, g, true); }
      }
      forall g: nat | g in t.struck ensures SomeEnded(t, g, false) {
        if g in s.struck { EndedStays(fn, s, e, g, false); }
      }
    }
  }

  /** All or none, whatever the command does to the slots.  If the command of generation g has run to completion it
      has done so exactly once, for the `parties` calls with the indices 0 to parties - 1.  And unless a wait of g has
      thrown after that, a call of g that has ended has returned normally if and only if the command has run and left
      a slot for every party: otherwise the last to arrive, which leaves first, misses its slot and breaks the
      generation. */
  lemma AllOrNone<T>(fn: seq<T> -> seq<T>, parties: nat, es: seq<Event<T>>, g: nat)
    requires parties > 0 && Run(fn, parties, es).Some? && g <= Run(fn, parties, es).value.synch
    ensures var s := Run(fn, parties, es).value;
            g in s.runs ==>
              && multiset(s.runs)[g] == 1 && g < |s.members| && |s.members[g]| == parties
              && (forall i :: 0 <= i < parties ==>
                    && s.members[g][i] < |s.calls|
                    && s.calls[s.members[g][i]].gen == g && s.calls[s.members[g][i]].index == i)
              && (forall c :: 0 <= c < |s.calls| && IsMember(s.calls[c]) && s.calls[c].gen == g ==>
                    s.calls[c].index < parties && s.members[g][s.calls[c].index] == c)
    ensures var s := Run(fn, parties, es).value;
            g < |s.presented|
            && (g !in s.struck ==>
                  forall c :: 0 <= c < |s.calls| && IsMember(s.calls[c]) && s.calls[c].gen == g
                              && s.calls[c].at != Inside ==>
                    (s.calls[c].at == Normal <==> g in s.runs && |fn(s.presented[g])| >= parties))
  {
    var s := Run(fn, parties, es).value;
    RunKeepsInv(fn, parties, es);
    RunKeepsEnds(fn, parties, es);
    forall c | 0 <= c < |s.calls| && IsMember(s.calls[c]) && s.calls[c].gen == g
      ensures g in s.runs ==> s.calls[c].index < parties && s.members[g][s.calls[c].index] == c
      ensures g !in s.struck && s.calls[c].at != Inside ==>
                (s.calls[c].at == Normal <==> g in s.runs && Enough(fn, s, g))
    {
      assert CallOk(fn, s, c) && EndOk(fn, s, c);
    }
    if g in s.runs {
      forall i | 0 <= i < parties
        ensures s.members[g][i] < |s.calls|
        ensures s.calls[s.members[g][i]].gen == g && s.calls[s.members[g][i]].index == i
      {
        assert MemberOk(s, g, i) && CallOk(fn, s, s.members[g][i]);
      }
    }
  }

  /** Exactly then does it fail: some calls of a generation return normally and others end otherwise if and only if a
      wait of the generation has thrown after a command that left a slot for every party. */
  lemma AllOrNoneFailsIff<T>(fn: seq<T> -> seq<T>, parties: nat, es: seq<Event<T>>, g: nat)
    requires parties > 0 && Run(fn, parties, es).Some?
    ensures var s := Run(fn, parties, es).value;
            SomeEnded(s, g, true) && SomeEnded(s, g, false) <==> g in s.struck && Enough(fn, s, g)
  {
    var s := Run(fn, parties, es).value;
    RunKeepsInv(fn, parties, es);
    RunKeepsEnds(fn, parties, es);
    if SomeEnded(s, g, true) && SomeEnded(s, g, false) {
      var c: nat, d: nat :| HasEnded(s, g, c, true) && HasEnded(s, g, d, false);
      assert CallOk(fn, s, c) && CallOk(fn, s, d) && EndOk(fn, s, c) && EndOk(fn, s, d);
    }
  }

  lemma TwoPassTheGate(fn: seq<int> -> seq<int>) returns (es: seq<Event<int>>)
    ensures Run(fn, 2, es) == Some(First(2, 0, 0, 0, false, [Passed, Passed], false))
  {
    hide Run;
    var s0, s1 := First(2, 2, 0, 0, false, [], false), First(2, 2, 0, 0, false, [AtGate], false);
    var s2, s3 := First(2, 2, 0, 0, false, [AtGate, AtGate], false), First(2, 1, 0, 0, false, [Passed, AtGate], false);
    es := [];
    InitIsFirst(fn, 2);
    es := FirstStep(fn, es, s0, Start(7), s1);
    es := FirstStep(fn, es, s1, Start(7), s2);
    es := FirstStep(fn, es, s2, PassGate(0), s3);
    es := FirstStep(fn, es, s3, PassGate(1), First(2, 0, 0, 0, false, [Passed, Passed], false));
  }

  /** The second of two calls has arrived and has run the command on two items 7. */
  lemma TwoTrip(fn: seq<int> -> seq<int>) returns (es: seq<Event<int>>, s: State<int>)
    ensures Run(fn, 2, es) == Some(s)
    ensures s.parties == 2 && s.resets == 1 && s.count == 2 && s.triggered && s.synch == 0 && s.runs == [0]
    ensures s.slots == fn([7, 7]) && |s.calls| == 2 && s.broken == (|fn([7, 7])| < 2)
    ensures s.calls[0] == FirstCall(Inside, 0)
    ensures s.calls[1].at == if |fn([7, 7])| < 2 then Broken else Normal
  {
    hide Run;
    var s0 := First(2, 0, 1, 1, false, [Inside, Passed], false);
    es := TwoPassTheGate(fn);
    es := FirstStep(fn, es, First(2, 0, 0, 0, false, [Passed, Passed], false), Arrive(0, false, false), s0);
    assert Join(s0, 1).slots == [7, 7];
    s := Step(fn, s0, Arrive(1, false, false)).value;
    RunStep(fn, 2, es, Arrive(1, false, false), s0, s);
    es := es + [Arrive(1, false, false)];
  }

  /** A command that leaves fewer slots than parties: it has run, the generation has ended, and nobody has returned
      normally. */
  lemma ShorteningBreaksEverybody(fn: seq<int> -> seq<int>) returns (es: seq<Event<int>>)
    requires |fn([7, 7])| < 2
    ensures Run(fn, 2, es).Some?
    ensures var s := Run(fn, 2, es).value;
            s.runs == [0] && s.synch == 1 && |s.calls| == 2 && s.calls[0].at == s.calls[1].at == Broken
  {
    hide Run;
    var s: State<int>;
    es, s := TwoTrip(fn);
    RunStep(fn, 2, es, Wake(0, false, false), s, Step(fn, s, Wake(0, false, false)).value);
    es := es + [Wake(0, false, false)];
  }

  /** A command that leaves both slots, after which the wait of the first call throws: the second has returned
      normally. */
  lemma CancelledWaitSplits(fn: seq<int> -> seq<int>) returns (es: seq<Event<int>>)
    requires |fn([7, 7])| >= 2
    ensures Run(fn, 2, es).Some?
    ensures var s := Run(fn, 2, es).value;
            s.runs == [0] && |s.calls| == 2 && s.calls[0].at == Threw && s.calls[1].at == Normal
  {
    hide Run;
    var s: State<int>;
    es, s := TwoTrip(fn);
    RunStep(fn, 2, es, WaitThrows(0), s, Step(fn, s, WaitThrows(0)).value);
    es := es + [WaitThrows(0)];
  }

  // ----- how each section ends

  /** At the gate: a new call presents its item, a permit lets it pass, and a call that is refused takes none. */
  lemma GateOutcome<T>(fn: seq<T> -> seq<T>, s: State<T>, c: nat, item: T)
    requires s.parties > 0 && c < |s.calls|
    ensures var r := Step(fn, s, Start(item));
      && r.Some? && |r.value.calls| == |s.calls| + 1 && r.value.calls[..|s.calls|] == s.calls
      && r.value.calls[|s.calls|].item == item && r.value.calls[|s.calls|].at == AtGate
      && r.value.(calls := s.calls) == s
    ensures var r := Step(fn, s, PassGate(c));
      r == if s.calls[c].at == AtGate && s.gate > 0
           then Some(s.(gate := s.gate - 1, calls := s.calls[c := s.calls[c].(at := Passed)])) else None
    ensures var r := Step(fn, s, Refuse(c));
      r == if s.calls[c].at == AtGate then Some(s.(calls := s.calls[c := s.calls[c].(at := Refused)])) else None
  {
  }

  /** A call that arrives gets the number of those in the rendezvous as its index, and its item the next slot.  In a
      broken generation it ends as broken.  Otherwise the last of the parties runs the command on all the items, whether
      its deadline has passed or not: it throws with the command, or returns what the command left in its slot, or ends
      as broken if that slot is gone.  Any other waits, or breaks the generation if its deadline has passed. */
  lemma ArrivalOutcome<T>(fn: seq<T> -> seq<T>, parties: nat, es: seq<Event<T>>, c: nat, expired: bool, throws: bool)
    requires parties > 0 && Run(fn, parties, es).Some?
    requires var s := Run(fn, parties, es).value; c < |s.calls| && s.calls[c].at == Passed
    ensures Step(fn, Run(fn, parties, es).value, Arrive(c, expired, throws)).Some?
    ensures var s := Run(fn, parties, es).value;
            var t := Step(fn, s, Arrive(c, expired, throws)).value;
            var last, slots := s.count + 1 == parties, fn(s.slots + [s.calls[c].item]);
            && |t.calls| == |s.calls| && (forall d :: 0 <= d < |s.calls| && d != c ==> t.calls[d] == s.calls[d])
            && t.calls[c].item == s.calls[c].item && t.calls[c].gen == s.synch && t.calls[c].index == s.count
            && (t.calls[c].at == Broken <==> s.broken || (last && !throws && |slots| < parties))
            && (t.calls[c].at == Normal <==> !s.broken && last && !throws && |slots| >= parties)
            && (t.calls[c].at == Threw <==> !s.broken && last && throws)
            && (t.calls[c].at == TimedOut <==> !s.broken && !last && expired)
            && (t.calls[c].at == Inside <==> !s.broken && !last && !expired)
            && (t.calls[c].at == Normal ==> t.calls[c].got == Some(slots[s.count]))
            && t.runs == s.runs + (if !s.broken && last && !throws then [s.synch] else [])
            && (t.synch == s.synch ==>
                  && (t.broken <==> t.calls[c].at in {Broken, TimedOut, Threw})
                  && (t.triggered <==> !s.broken && last && !throws)
                  && t.slots == if t.triggered then slots else s.slots + [s.calls[c].item])
  {
    var s := Run(fn, parties, es).value;
    RunKeepsInv(fn, parties, es);
    SomeInside(s, c);
    hide RunsOk, CallOk, MemberOk, Run;
  }

  /** A call that wakes up, or whose deadline passes: in a broken generation it ends as broken, in a tripped one it
      returns its slot, and in an open one it waits again or breaks the generation; it never runs the command. */
  lemma WakeOutcome<T>(fn: seq<T> -> seq<T>, parties: nat, es: seq<Event<T>>, c: nat, expired: bool, throws: bool)
    requires parties > 0 && Run(fn, parties, es).Some?
    requires var s := Run(fn, parties, es).value; c < |s.calls| && s.calls[c].at == Inside
    ensures Step(fn, Run(fn, parties, es).value, Wake(c, expired, throws)).Some?
    ensures var s := Run(fn, parties, es).value;
            var t := Step(fn, s, Wake(c, expired, throws)).value;
            && |t.calls| == |s.calls| && (forall d :: 0 <= d < |s.calls| && d != c ==> t.calls[d] == s.calls[d])
            && t.calls[c].item == s.calls[c].item && t.calls[c].gen == s.synch && t.calls[c].index == s.calls[c].index
            && (t.calls[c].at == Broken <==> s.broken)
            && (t.calls[c].at == Normal <==> !s.broken && s.triggered)
            && (t.calls[c].at == TimedOut <==> !s.broken && !s.triggered && expired)
            && (t.calls[c].at == Inside <==> !s.broken && !s.triggered && !expired)
            && (t.calls[c].at == Normal ==>
                  t.calls[c].index < |s.slots| && t.calls[c].got == Some(s.slots[t.calls[c].index]))
            && t.runs == s.runs
            && (t.synch == s.synch ==>
                  && (t.broken <==> s.broken || t.calls[c].at == TimedOut)
                  && t.triggered == s.triggered && t.slots == s.slots)
  {
    var s := Run(fn, parties, es).value;
    RunKeepsInv(fn, parties, es);
    RunKeepsEnds(fn, parties, es);
    assert CallOk(fn, s, c);
    hide Inv, NumbersOk, MemberOk, EndOk, Run;
  }

  /** A wait that throws breaks the generation and takes the thread, and its permit, out of it. */
  lemma WaitThrowsOutcome<T>(fn: seq<T> -> seq<T>, s: State<T>, c: nat)
    requires Inv(fn, s) && c < |s.calls| && s.calls[c].at == Inside
    ensures Step(fn, s, WaitThrows(c)).Some?
    ensures var t := Step(fn, s, WaitThrows(c)).value;
            && t.calls == s.calls[c := s.calls[c].(at := Threw)] && t.broken && t.resets == s.resets - 1
            && t.count == s.count - 1 && t.dropped == s.dropped + 1 && t.gate == s.gate
            && t.synch == s.synch && t.triggered == s.triggered && t.slots == s.slots && t.runs == s.runs
  {
    InsideIsCounted(fn, s, c);
    hide Inv;
  }

  // ----- a complete exchange

  /** Nothing is lost or duplicated in a complete exchange: together the calls return what together they presented. */
  lemma CompleteExchangeConservesItems<T>(parties: nat, es: seq<Event<T>>, g: nat, returned: seq<T>)
    requires parties > 0 && Run(Rotate<T>, parties, es).Some?
    requires var s := Run(Rotate<T>, parties, es).value;
             && g < |s.members| && |s.members[g]| == |returned| == parties
             && forall i :: 0 <= i < parties ==>
                  var c := s.members[g][i];
                  c < |s.calls| && s.calls[c].at == Normal && s.calls[c].got == Some(returned[i])
    ensures var s := Run(Rotate<T>, parties, es).value;
            && g < |s.presented| && |s.presented[g]| == parties
            && (forall i :: 0 <= i < parties ==> s.presented[g][i] == s.calls[s.members[g][i]].item)
            && multiset(returned) == multiset(s.presented[g])
  {
    var s := Run(Rotate<T>, parties, es).value;
    RunKeepsInv(Rotate<T>, parties, es);
    forall i | 0 <= i < parties
      ensures s.presented[g][i] == s.calls[s.members[g][i]].item && returned[i] == Rotate(s.presented[g])[i]
    {
      var c := s.members[g][i];
      assert MemberOk(s, g, i) && CallOk(Rotate<T>, s, c);
    }
    assert returned == Rotate(s.presented[g]);
    assert s.presented[g] == [s.presented[g][0]] + s.presented[g][1..];
  }

  // ----- the class

  /** RendezvousRotator: the first item is pushed behind the last and erased. */
  method Rotator<T>(slots: seq<T>) returns (r: seq<T>)
    ensures r == Rotate(slots)
  {
    r := slots;
    if |r| > 0 {
      r := r + [r[0]];
      r := r[1..];
    }
  }

  /** The part of the state that the source keeps */
  datatype Fields<+T> = Fields(parties: nat, gate: int, count: nat, resets: int, synch: nat, broken: bool, triggered: bool,
                               slots: seq<T>)

  function FieldsOf<T>(s: State<T>): Fields<T> {
    Fields(s.parties, s.gate, s.count, s.resets, s.synch, s.broken, s.triggered, s.slots)
  }

  class Rendezvous<T> {
    const fn: seq<T> -> seq<T>
    const parties: nat
    var gate: int      // the permits of entryGate_
    var count: nat
    var resets: int
    var synch: nat
    var broken: bool
    var triggered: bool
    var slots: seq<T>

    // the state of the machine, with the calls and the histories
    ghost var state: State<T>

    /** The fields are those of the state, which has been reached by a run. */
    ghost predicate Valid()
      reads this
    {
      Agrees() && Inv(fn, state)
    }

    ghost predicate Agrees()
      reads this
    {
      parties > 0 && Fields(parties, gate, count, resets, synch, broken, triggered, slots) == FieldsOf(state)
    }

    constructor (parties: nat, fn: seq<T> -> seq<T>)
      requires parties > 0
      ensures Valid() && state == Init(parties) && this.fn == fn
    {
      this.fn, this.parties, gate, count, resets, synch := fn, parties, parties, 0, 0, 0;
      broken, triggered, slots := false, false, [];
      state := Init(parties);
      InitInv(fn, parties);
    }

    /** The section of rendezvous from the lock to the wait, or to the end of the call. */
    method Enter(ghost c: nat, item: T, expired: bool, throws: bool) returns (at: At, got: Option<T>)
      requires Valid() && c < |state.calls| && state.calls[c].at == Passed && state.calls[c].item == item
      modifies this
      ensures Valid() && Step(fn, old(state), Arrive(c, expired, throws)) == Some(state)
      ensures c < |state.calls| && at == state.calls[c].at && got == state.calls[c].got
    {
      JoinKeepsInv(fn, state, c);
      InvNumbers(fn, state);
      JoinFields(state, c);
      ArriveStep(fn, state, c, expired, throws);
      hide Inv, Loop, Join, Step;
      var index := count;
      slots := slots + [item];
      count := count + 1;
      resets := count;
      state := Join(state, c);
      at, got := Await(c, index, expired, throws);
    }

    /** The section of rendezvous after a wait; index is the local variable of the call. */
    method Resume(ghost c: nat, index: nat, expired: bool, throws: bool) returns (at: At, got: Option<T>)
      requires Valid() && c < |state.calls| && state.calls[c].at == Inside && state.calls[c].index == index
      modifies this
      ensures Valid() && Step(fn, old(state), Wake(c, expired, throws)) == Some(state)
      ensures c < |state.calls| && at == state.calls[c].at && got == state.calls[c].got
    {
      InvNumbers(fn, state);
      hide Inv, Loop;
      at, got := Await(c, index, expired, throws);
    }

    /** The section of rendezvous after a wait that has thrown. */
    method WaitThrew(ghost c: nat)
      requires Valid() && c < |state.calls| && state.calls[c].at == Inside
      modifies this
      ensures Valid() && Step(fn, old(state), WaitThrows(c)) == Some(state)
    {
      InvNumbers(fn, state);
      InsideIsCounted(fn, state, c);
      ThrowOutKeepsInv(fn, state, c);
      hide Inv;
      state := Strike(state);
      Expel(c);
    }

    /** The handler of an exception of the wait or of the command */
    method Expel(ghost c: nat)
      requires Agrees() && c < |state.calls| && state.count > 0
      modifies this
      ensures Agrees() && state == ThrowOut(old(state), c)
    {
      resets, count, broken := resets - 1, count - 1, true;
      state := ThrowOut(state, c);
    }

    /** The loop, left at a wait, with an exception of the command, or through the end of the call. */
    method Await(ghost c: nat, index: nat, expired: bool, throws: bool) returns (at: At, got: Option<T>)
      requires Valid() && c < |state.calls| && state.calls[c].at == Inside && state.calls[c].index == index
      requires state.parties > 0
      modifies this
      ensures Valid() && state == Loop(fn, old(state), c, expired, throws)
      ensures c < |state.calls| && at == state.calls[c].at && got == state.calls[c].got
    {
      LoopKeepsInv(fn, state, c, expired, throws);
      InsideIsCounted(fn, state, c);
      CommandFields(fn, state, c);
      LoopBranches(fn, state, c, expired, throws);
      hide Inv, Leave, ThrowOut, Trip, BreakUp, Loop;
      ghost var s := state;
      var timeout := false;
      while !(broken || triggered)
        invariant Agrees() && count == s.count && c < |state.calls| && state.calls == s.calls
        invariant
          || (state == s && !timeout)
          || (state == BreakUp(s) && !s.broken && !s.triggered && count != parties && expired && timeout)
          || (state == Trip(fn, s) && !s.broken && !s.triggered && count == parties && !throws && !timeout)
        decreases if broken || triggered then 0 else 1
      {
        if count != parties {
          if !expired {
            return Inside, None;
          }
          timeout, broken, state := true, true, BreakUp(s);
        } else if throws {
          Expel(c);
          return Threw, None;
        } else {
          slots, triggered, state := fn(slots), true, Trip(fn, s);
        }
      }
      at, got := Depart(c, index, timeout);
    }

    /** What the call will return, or why it will throw. */
    method TakeSlot(index: nat, timeout: bool) returns (at: At, got: Option<T>)
      modifies this`broken
      ensures broken == (old(broken) || index >= |slots|)
      ensures at == if timeout then TimedOut else if broken then Broken else Normal
      ensures got == if at == Normal then Some(slots[index]) else None
    {
      var mine := None;
      if index >= |slots| {
        broken := true;
      } else {
        mine := Some(slots[index]);
      }
      at := if timeout then TimedOut else if broken then Broken else Normal;
      got := if at == Normal then mine else None;
    }

    /** The end of the call, which re-arms the rendezvous if nobody else is left. */
    method Depart(ghost c: nat, index: nat, timeout: bool) returns (at: At, got: Option<T>)
      requires Agrees() && c < |state.calls| && state.calls[c].index == index
      modifies this
      ensures Agrees() && state == Leave(old(state), c, timeout)
      ensures c < |state.calls| && at == state.calls[c].at && got == state.calls[c].got
    {
      hide Leave;
      LeaveResult(state, c, timeout);
      at, got := TakeSlot(index, timeout);
      Settle(c, timeout);
    }

    /** resets_ goes down, and at 0 everything starts over. */
    method Settle(ghost c: nat, timeout: bool)
      requires parties > 0 && c < |state.calls|
      requires Fields(parties, gate, count, resets, synch, broken, triggered, slots) ==
        FieldsOf(state).(broken := state.broken || state.calls[c].index >= |state.slots|)
      modifies this
      ensures Agrees() && state == Leave(old(state), c, timeout)
    {
      hide Leave, LeftAs;
      resets := resets - 1;
      if resets == 0 {
        LeaveEnds(state, c, timeout);
        slots := [];
        gate := gate + count;
        broken, triggered := false, false;
        synch, count := synch + 1, 0;
      } else {
        LeaveGoesOn(state, c, timeout);
      }
      state := Leave(state, c, timeout);
    }
  }

  /** What the end of a call makes of the call */
  ghost predicate LeftAs<T>(s: State<T>, c: nat, timeout: bool, call: Call<T>)
    requires c < |s.calls|
  {
    var gone := s.calls[c].index >= |s.slots|;
    && call.at == (if timeout then TimedOut else if s.broken || gone then Broken else Normal)
    && call.got == (if call.at == Normal then Some(s.slots[s.calls[c].index]) else None)
  }

  lemma LeaveResult<T>(s: State<T>, c: nat, timeout: bool)
    requires c < |s.calls|
    ensures var t := Leave(s, c, timeout); c < |t.calls| && LeftAs(s, c, timeout, t.calls[c])
  {
  }

  /** The fields after a call that has ended its generation */
  lemma LeaveEnds<T>(s: State<T>, c: nat, timeout: bool)
    requires c < |s.calls| && s.resets == 1
    ensures var t := Leave(s, c, timeout);
      FieldsOf(t) == Fields(s.parties, s.gate + s.count, 0, 0, s.synch + 1, false, false, [])
  {
  }

  /** The fields after one that has not */
  lemma LeaveGoesOn<T>(s: State<T>, c: nat, timeout: bool)
    requires c < |s.calls| && s.resets != 1
    ensures var t := Leave(s, c, timeout);
      FieldsOf(t) == FieldsOf(s).(resets := s.resets - 1, broken := s.broken || s.calls[c].index >= |s.slots|)
  {
  }

  /** The fields after the exception of a command, after the command, and after a timeout */
  lemma CommandFields<T>(fn: seq<T> -> seq<T>, s: State<T>, c: nat)
    requires c < |s.calls| && s.count > 0
    ensures var t := ThrowOut(s, c);
      && FieldsOf(t) == FieldsOf(s).(count := s.count - 1, resets := s.resets - 1, broken := true)
      && |t.calls| == |s.calls| && t.calls[c].at == Threw && t.calls[c].got == s.calls[c].got
    ensures var t := Trip(fn, s);
      t.calls == s.calls && FieldsOf(t) == FieldsOf(s).(triggered := true, slots := fn(s.slots))
    ensures var t := BreakUp(s); t.calls == s.calls && FieldsOf(t) == FieldsOf(s).(broken := true)
  {
  }

  /** The fields after an arrival */
  lemma JoinFields<T>(s: State<T>, c: nat)
    requires c < |s.calls| && |s.members| == |s.presented| == s.synch + 1
    ensures var t := Join(s, c);
      && FieldsOf(t) == FieldsOf(s).(count := s.count + 1, resets := s.count + 1, slots := s.slots + [s.calls[c].item])
      && |t.calls| == |s.calls| && t.calls[c].at == Inside && t.calls[c].index == s.count
  {
  }

  lemma ArriveStep<T>(fn: seq<T> -> seq<T>, s: State<T>, c: nat, expired: bool, throws: bool)
    requires s.parties > 0 && c < |s.calls| && s.calls[c].at == Passed && |s.members| == |s.presented| == s.synch + 1
    ensures Step(fn, s, Arrive(c, expired, throws)) == Some(Loop(fn, Join(s, c), c, expired, throws))
  {
  }

  lemma LoopBranches<T>(fn: seq<T> -> seq<T>, s: State<T>, c: nat, expired: bool, throws: bool)
    requires c < |s.calls| && s.parties > 0 && s.count > 0
    ensures Loop(fn, s, c, expired, throws) ==
      if s.broken || s.triggered then Leave(s, c, false)
      else if s.count != s.parties then if expired then Leave(BreakUp(s), c, true) else s
      else if throws then ThrowOut(s, c)
      else Leave(Trip(fn, s), c, false)
  {
  }

  lemma InvNumbers<T>(fn: seq<T> -> seq<T>, s: State<T>)
    requires Inv(fn, s)
    ensures |s.members| == |s.presented| == s.synch + 1 && s.resets >= 0 && s.parties > 0
  {
  }

  lemma InitInv<T>(fn: seq<T> -> seq<T>, parties: nat)
    requires parties > 0
    ensures Inv(fn, Init(parties))
  {
    assert Run(fn, parties, []) == Some(Init(parties));
    RunKeepsInv(fn, parties, []);
  }
}
