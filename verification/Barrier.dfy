/** DAF::Barrier: generations of `parties` threads, an entry gate, a command run by the last to arrive, and breakage.

    Every call of barrier is one entry of `State.calls`; a step is one section under the barrier's lock (the command
    runs under it), or a call passing the entry gate.  Whether a deadline has passed and whether the command throws
    are decided by the event. */
module Barrier {
  import opened Counting
  import opened Options

  /** AtGate: before the entry gate.  Passed: through the gate, not yet counted.  Inside: waiting on the condition. */
  datatype At = AtGate | Passed | Inside | Normal | Broken | TimedOut | Threw | Refused

  /** `gen` and `index` tell when a call arrived, once it has. */
  datatype Call = Call(at: At, gen: nat, index: nat)

  /** Beside the fields of the source there are histories: `members[g][i]` is the call that arrived as index i of
      generation g, `runs` the generations whose command ran to completion; `late` says that some call arrived in this
      generation after another had left, `struck` are the generations in which a wait has thrown
      after the command had run. */
  datatype State = State(parties: nat, gate: int, count: nat, resets: int, synch: nat, broken: bool, triggered: bool,
                         calls: seq<Call>, members: seq<seq<nat>>, runs: seq<nat>, late: bool, struck: set<nat>)

  datatype Event =
    | Start
    | PassGate(c: nat)
    | Refuse(c: nat)                               // the timed acquire of the gate fails
    | Arrive(c: nat, expired: bool, throws: bool)
    | Wake(c: nat, expired: bool, throws: bool)    // notified, timed out, or for no reason
    | WaitThrows(c: nat)                           // the wait itself throws: thread cancellation, or an interrupt

  predicate IsInside(call: Call) { call.at == Inside }
  predicate IsPassed(call: Call) { call.at == Passed }
  predicate IsMember(call: Call) { call.at !in {AtGate, Passed, Refused} }

  function InsideCount(s: State): nat { Count(s.calls, IsInside) }

  function Init(parties: nat): State {
    State(parties, parties, 0, 0, 0, false, false, [], [[]], [], false, {})
  }

  function SetAt(s: State, c: nat, at: At): State
    requires c < |s.calls|
  {
    s.(calls := s.calls[c := s.calls[c].(at := at)])
  }

  /** The end of the call, from the notification to the return: the one that brings resets_ to 0 opens the gate again.
      */
  function Leave(s: State, c: nat, timeout: bool): State
    requires c < |s.calls|
  {
    var calls := s.calls[c := s.calls[c].(at := if timeout then TimedOut else if s.broken then Broken else Normal)];
    if s.resets - 1 != 0 then s.(calls := calls, resets := s.resets - 1)
    else
      s.(calls := calls, resets := 0, gate := s.gate + s.count, broken := false, triggered := false,
         synch := s.synch + 1, count := 0, members := s.members + [[]], late := false)
  }

  /** The handler of an exception inside the loop: the barrier breaks, and nothing is reset. */
  function ThrowOut(s: State, c: nat): State
    requires c < |s.calls|
  {
    s.(calls := s.calls[c := s.calls[c].(at := Threw)], broken := true, resets := s.resets - 1)
  }

  /** A wait that throws after the command has run splits its generation. */
  function Strike(s: State): State { s.(struck := if s.triggered then s.struck + {s.synch} else s.struck) }

  function Trip(s: State): State { s.(triggered := true, runs := s.runs + [s.synch]) }

  /** The loop of the source, from its test to the next wait or to the end of the call. */
  function Loop(s: State, c: nat, expired: bool, throws: bool): State
    requires c < |s.calls|
  {
    if s.broken || s.triggered then Leave(s, c, false)
    else if s.count != s.parties then
      if expired then Leave(s.(broken := true), c, true) else SetAt(s, c, Inside)
    else if throws then ThrowOut(s, c)
    else Leave(Trip(s), c, false)
  }

  /** Call c is counted in: it becomes the last member of the generation. */
  function Join(s: State, c: nat): State
    requires c < |s.calls| && |s.members| == s.synch + 1
  {
    s.(count := s.count + 1, resets := s.count + 1, calls := s.calls[c := Call(Inside, s.synch, s.count)],
       members := s.members[s.synch := s.members[s.synch] + [c]], late := s.late || s.count > s.resets)
  }

  function Step(s: State, e: Event): (r: Option<State>)
    ensures r.Some? ==> r.value.parties == s.parties
  {
    match e
    case Start => Some(s.(calls := s.calls + [Call(AtGate, 0, 0)]))
    case PassGate(c) =>
      if c < |s.calls| && s.calls[c].at == AtGate && s.gate > 0
      then Some(s.(calls := s.calls[c := s.calls[c].(at := Passed)], gate := s.gate - 1)) else None
    case Refuse(c) =>
      if c < |s.calls| && s.calls[c].at == AtGate then Some(SetAt(s, c, Refused)) else None
    case Arrive(c, expired, throws) =>
      if c < |s.calls| && s.calls[c].at == Passed && |s.members| == s.synch + 1
      then Some(Loop(Join(s, c), c, expired, throws)) else None
    case Wake(c, expired, throws) =>
      if c < |s.calls| && s.calls[c].at == Inside then Some(Loop(s, c, expired, throws)) else None
    case WaitThrows(c) =>
      if c < |s.calls| && s.calls[c].at == Inside then Some(ThrowOut(Strike(s), c)) else None
  }

  // ----- the invariant

  /** gate permits, threads between gate and lock, and count_ add up; resets_ covers every thread inside, and exactly
      unless some thread came late; an open generation still has all its members. */
  ghost predicate NumbersOk(s: State) {
    && s.parties > 0 && s.gate >= 0
    && s.gate + Count(s.calls, IsPassed) + s.count == s.parties
    && InsideCount(s) <= s.resets <= s.count
    && (s.resets == InsideCount(s) <==> !s.late)
    && (s.broken ==> s.count > 0)
    && (!s.broken && !s.triggered ==> s.count == InsideCount(s))
    && (s.triggered ==> s.count == s.parties && !s.late && (s.synch !in s.struck ==> InsideCount(s) > 0))
    && |s.members| == s.synch + 1 && |s.members[s.synch]| == s.count
    && (s.broken && s.triggered ==> s.synch in s.struck)
  }

  ghost predicate RunsOk(s: State) {
    && (s.triggered <==> s.synch in s.runs)
    && (forall g :: g in s.struck ==> g in s.runs)
    && (forall g :: g in s.runs ==>
          g <= s.synch && g < |s.members| && |s.members[g]| == s.parties && multiset(s.runs)[g] == 1)
  }

  ghost predicate CallOk(s: State, c: nat)
    requires c < |s.calls|
  {
    var call := s.calls[c];
    IsMember(call) ==>
      && call.gen <= s.synch && call.gen < |s.members|
      && call.index < |s.members[call.gen]| && s.members[call.gen][call.index] == c
      && (call.at == Inside ==> call.gen == s.synch)
      && (call.gen == s.synch && !s.broken && !s.triggered ==> call.at == Inside)
      && (if call.gen !in s.runs then call.at != Normal else call.gen !in s.struck ==> call.at in {Inside, Normal})
  }

  ghost predicate MemberOk(s: State, g: nat, i: nat)
    requires g < |s.members| && i < |s.members[g]|
  {
    var c := s.members[g][i];
    c < |s.calls| && IsMember(s.calls[c]) && s.calls[c].gen == g && s.calls[c].index == i
  }

  ghost predicate Inv(s: State) {
    && NumbersOk(s)
    && RunsOk(s)
    && (forall c :: 0 <= c < |s.calls| ==> CallOk(s, c))
    && (forall g, i :: 0 <= g < |s.members| && 0 <= i < |s.members[g]| ==> MemberOk(s, g, i))
  }

  lemma CountsOfUpdate(s: State, c: nat, call: Call)
    requires c < |s.calls|
    ensures var calls := s.calls[c := call];
            && Count(calls, IsInside) == Count(s.calls, IsInside) - One(IsInside(s.calls[c])) + One(IsInside(call))
            && Count(calls, IsPassed) == Count(s.calls, IsPassed) - One(IsPassed(s.calls[c])) + One(IsPassed(call))
  {
    CountUpdate(s.calls, c, call, IsInside);
    CountUpdate(s.calls, c, call, IsPassed);
  }

  lemma JoinKeepsInv(s: State, c: nat)
    requires Inv(s) && c < |s.calls| && s.calls[c].at == Passed
    ensures Inv(Join(s, c))
  {
    CountsOfUpdate(s, c, Call(Inside, s.synch, s.count));
    CountPositive(s.calls, c, IsPassed);
    var t := Join(s, c);
    forall d | 0 <= d < |t.calls| ensures CallOk(t, d) { assert CallOk(s, d); }
    forall g, i | 0 <= g < |t.members| && 0 <= i < |t.members[g]| ensures MemberOk(t, g, i) {
      if g < s.synch || i < s.count { assert MemberOk(s, g, i); }
    }
  }

  predicate MayLeave(s: State, c: nat, timeout: bool) {
    c < |s.calls| && s.calls[c].at == Inside && (s.broken || s.triggered) && (timeout ==> !s.triggered)
  }

  lemma LeaveKeepsNumbers(s: State, c: nat, timeout: bool)
    requires NumbersOk(s) && RunsOk(s) && MayLeave(s, c, timeout)
    ensures var t := Leave(s, c, timeout);
            && NumbersOk(t) && RunsOk(t) && |t.calls| == |s.calls|
            && t.members == (if s.resets == 1 then s.members + [[]] else s.members)
            && (t.synch > s.synch ==> InsideCount(t) == 0)
  {
    var t := Leave(s, c, timeout);
    assert |t.calls| == |s.calls|;
    CountsOfUpdate(s, c, t.calls[c]);
  }

  lemma LeaveKeepsCall(s: State, c: nat, timeout: bool, d: nat)
    requires NumbersOk(s) && RunsOk(s) && MayLeave(s, c, timeout) && CallOk(s, c) && d < |s.calls| && CallOk(s, d)
    ensures d < |Leave(s, c, timeout).calls| && CallOk(Leave(s, c, timeout), d)
  {
    var t := Leave(s, c, timeout);
    LeaveKeepsNumbers(s, c, timeout);
    if d < |t.calls| && t.calls[d].at == Inside { CountPositive(t.calls, d, IsInside); }
  }

  lemma LeaveKeepsMember(s: State, c: nat, timeout: bool, g: nat, i: nat)
    requires MayLeave(s, c, timeout) && g < |s.members| && i < |s.members[g]| && MemberOk(s, g, i)
    ensures var t := Leave(s, c, timeout);
            |s.members| <= |t.members| && t.members[g] == s.members[g] && MemberOk(t, g, i)
  {
  }

  lemma LeaveKeepsInv(s: State, c: nat, timeout: bool)
    requires Inv(s) && MayLeave(s, c, timeout)
    ensures Inv(Leave(s, c, timeout))
  {
    assert CallOk(s, c);
    hide CallOk, MemberOk, NumbersOk, RunsOk, Leave;
    var t := Leave(s, c, timeout);
    LeaveKeepsNumbers(s, c, timeout);
    forall d | 0 <= d < |t.calls| ensures CallOk(t, d) {
      assert CallOk(s, d);
      LeaveKeepsCall(s, c, timeout, d);
    }
    forall g, i | 0 <= g < |t.members| && 0 <= i < |t.members[g]| ensures MemberOk(t, g, i) {
      assert MemberOk(s, g, i);
      LeaveKeepsMember(s, c, timeout, g, i);
    }
  }

  lemma ThrowOutKeepsInv(s: State, c: nat)
    requires Inv(s) && c < |s.calls| && s.calls[c].at == Inside
    requires s.triggered ==> s.synch in s.struck
    ensures Inv(ThrowOut(s, c))
  {
    assert CallOk(s, c);
    var t := ThrowOut(s, c);
    CountsOfUpdate(s, c, t.calls[c]);
    forall d | 0 <= d < |t.calls| ensures CallOk(t, d) { assert CallOk(s, d); }
    forall g, i | 0 <= g < |t.members| && 0 <= i < |t.members[g]| ensures MemberOk(t, g, i) {
      assert MemberOk(s, g, i);
    }
  }

  /** Breaking an open generation, or running its command, before the caller leaves. */
  lemma FlagKeepsInv(s: State)
    requires Inv(s) && !s.broken && !s.triggered && InsideCount(s) > 0
    ensures Inv(s.(broken := true))
    ensures s.count == s.parties ==> Inv(Trip(s))
  {
    var t, u := s.(broken := true), Trip(s);
    forall d | 0 <= d < |s.calls| ensures CallOk(t, d) && CallOk(u, d) { assert CallOk(s, d); }
    forall g, i | 0 <= g < |s.members| && 0 <= i < |s.members[g]| ensures MemberOk(t, g, i) && MemberOk(u, g, i) {
      assert MemberOk(s, g, i);
    }
    forall g | g in u.runs && s.count == s.parties
      ensures g <= u.synch && |u.members[g]| == u.parties && multiset(u.runs)[g] == 1
    {
      assert g in s.runs || g == s.synch;
    }
  }

  lemma LoopKeepsInv(s: State, c: nat, expired: bool, throws: bool)
    requires Inv(s) && c < |s.calls| && s.calls[c].at == Inside
    ensures Inv(Loop(s, c, expired, throws))
  {
    CountPositive(s.calls, c, IsInside);
    if s.broken || s.triggered {
      LeaveKeepsInv(s, c, false);
    } else if s.count != s.parties {
      FlagKeepsInv(s);
      if expired { LeaveKeepsInv(s.(broken := true), c, true); }
      assert !expired ==> SetAt(s, c, Inside).calls == s.calls;
    } else if throws {
      ThrowOutKeepsInv(s, c);
    } else {
      FlagKeepsInv(s);
      LeaveKeepsInv(Trip(s), c, false);
    }
  }

  /** What happens at the gate, and what leaves every count alone. */
  lemma GateKeepsInv(s: State, t: State, c: nat, call: Call)
    requires Inv(s) && c <= |s.calls| && !IsMember(call) && (c < |s.calls| ==> !IsMember(s.calls[c]))
    requires t == s.(calls := if c == |s.calls| then s.calls + [call] else s.calls[c := call], gate := t.gate)
    requires 0 <= t.gate == s.gate + One(c < |s.calls| && IsPassed(s.calls[c])) - One(IsPassed(call))
    ensures Inv(t)
  {
    if c < |s.calls| { CountsOfUpdate(s, c, call); }
    else { CountAppend(s.calls, call, IsInside); CountAppend(s.calls, call, IsPassed); }
    forall d | 0 <= d < |t.calls| ensures CallOk(t, d) { if d < |s.calls| { assert CallOk(s, d); } }
    forall g, i | 0 <= g < |t.members| && 0 <= i < |t.members[g]| ensures MemberOk(t, g, i) {
      assert MemberOk(s, g, i);
    }
  }

  lemma StrikeKeepsInv(s: State)
    requires Inv(s)
    ensures Inv(Strike(s))
  {
    var t := Strike(s);
    forall d | 0 <= d < |t.calls| ensures CallOk(t, d) { assert CallOk(s, d); }
    forall g, i | 0 <= g < |t.members| && 0 <= i < |t.members[g]| ensures MemberOk(t, g, i) {
      assert MemberOk(s, g, i);
    }
  }

  lemma GateStepKeepsInv(s: State, e: Event)
    requires Inv(s) && Step(s, e).Some? && (e.Start? || e.PassGate? || e.Refuse?)
    ensures Inv(Step(s, e).value)
  {
    hide Inv;
    var t := Step(s, e).value;
    InvNumbers(s);
    match e
    case Start => GateKeepsInv(s, t, |s.calls|, Call(AtGate, 0, 0));
    case PassGate(c) => GateKeepsInv(s, t, c, t.calls[c]);
    case Refuse(c) => GateKeepsInv(s, t, c, t.calls[c]);
  }

  lemma StepKeepsInv(s: State, e: Event)
    requires Inv(s) && Step(s, e).Some?
    ensures Inv(Step(s, e).value)
  {
    hide Inv, Loop;
    match e
    case Start => GateStepKeepsInv(s, e);
    case PassGate(c) => GateStepKeepsInv(s, e);
    case Refuse(c) => GateStepKeepsInv(s, e);
    case Arrive(c, expired, throws) => JoinKeepsInv(s, c); LoopKeepsInv(Join(s, c), c, expired, throws);
    case Wake(c, expired, throws) => LoopKeepsInv(s, c, expired, throws);
    case WaitThrows(c) => StrikeKeepsInv(s); ThrowOutKeepsInv(Strike(s), c);
  }

  /** The state after a run, or None when some event could not happen where it stands. */
  function Run(parties: nat, es: seq<Event>): Option<State> {
    if es == [] then Some(Init(parties))
    else
      match Run(parties, es[..|es| - 1])
      case None => None
      case Some(s) => Step(s, es[|es| - 1])
  }

  lemma {:induction false} RunKeepsInv(parties: nat, es: seq<Event>)
    requires parties > 0 && Run(parties, es).Some?
    ensures Inv(Run(parties, es).value) && Run(parties, es).value.parties == parties
  {
    if es != [] {
      RunKeepsInv(parties, es[..|es| - 1]);
      StepKeepsInv(Run(parties, es[..|es| - 1]).value, es[|es| - 1]);
    }
  }

  // ----- over every run

  /** Gate permits, threads between the gate and the lock, and count_ always add up to the number of parties. */
  lemma GateIsConserved(parties: nat, es: seq<Event>)
    requires parties > 0 && Run(parties, es).Some?
    ensures var s := Run(parties, es).value;
            s.gate >= 0 && s.gate + Count(s.calls, IsPassed) + s.count == parties
  {
    RunKeepsInv(parties, es);
  }

  /** Generations are isolated, broken or not: resets_ is never less than the number of threads inside, every thread
      inside belongs to the current generation, and a step that ends a generation leaves none of it inside. */
  lemma GenerationsAreIsolated(parties: nat, es: seq<Event>, e: Event, c: nat)
    requires parties > 0 && Run(parties, es).Some? && Step(Run(parties, es).value, e).Some?
    ensures var s := Run(parties, es).value; InsideCount(s) <= s.resets
    ensures var s := Run(parties, es).value; c < |s.calls| && s.calls[c].at == Inside ==> s.calls[c].gen == s.synch
    ensures var s, t := Run(parties, es).value, Step(Run(parties, es).value, e).value;
            t.synch != s.synch ==> t.synch == s.synch + 1 && (c < |t.calls| ==> t.calls[c].at != Inside)
  {
    var s, t := Run(parties, es).value, Step(Run(parties, es).value, e).value;
    RunKeepsInv(parties, es);
    StepEndsGeneration(s, e);
    if c < |s.calls| { assert CallOk(s, c); }
    hide Step, Inv;
    if t.synch != s.synch && c < |t.calls| && t.calls[c].at == Inside { CountPositive(t.calls, c, IsInside); }
  }

  lemma LoopEndsGeneration(s: State, c: nat, expired: bool, throws: bool)
    requires Inv(s) && c < |s.calls| && s.calls[c].at == Inside
    ensures var t := Loop(s, c, expired, throws);
            t.synch != s.synch ==> t.synch == s.synch + 1 && InsideCount(t) == 0
  {
    CountPositive(s.calls, c, IsInside);
    if s.broken || s.triggered {
      LeaveKeepsNumbers(s, c, false);
    } else if s.count != s.parties {
      FlagKeepsInv(s);
      LeaveKeepsNumbers(s.(broken := true), c, true);
    } else {
      FlagKeepsInv(s);
      LeaveKeepsNumbers(Trip(s), c, false);
    }
  }

  lemma StepEndsGeneration(s: State, e: Event)
    requires Inv(s) && Step(s, e).Some?
    ensures var t := Step(s, e).value; t.synch != s.synch ==> t.synch == s.synch + 1 && InsideCount(t) == 0
  {
    hide Inv, Loop;
    match e
    case Arrive(c, expired, throws) => JoinKeepsInv(s, c); LoopEndsGeneration(Join(s, c), c, expired, throws);
    case Wake(c, expired, throws) => LoopEndsGeneration(s, c, expired, throws);
    case _ =>
  }

  /** All or none, unless a wait of the generation has thrown after its command had run.  Either the command of
      generation g has run to completion exactly once, `parties` calls arrived, with the indices 0 to parties - 1, and
      each has returned normally or, in the current generation, is still to wake up; or no call of the generation
      returns normally. */
  lemma AllOrNone(parties: nat, es: seq<Event>, g: nat)
    requires parties > 0 && Run(parties, es).Some? && g <= Run(parties, es).value.synch
    ensures var s := Run(parties, es).value;
            if g in s.runs then
              && multiset(s.runs)[g] == 1
              && g < |s.members| && |s.members[g]| == parties
              && (forall i :: 0 <= i < parties ==>
                    && s.members[g][i] < |s.calls|
                    && s.calls[s.members[g][i]].index == i && s.calls[s.members[g][i]].gen == g
                    && (g !in s.struck ==>
                          s.calls[s.members[g][i]].at in (if g < s.synch then {Normal} else {Normal, Inside})))
              && (forall c :: 0 <= c < |s.calls| && IsMember(s.calls[c]) && s.calls[c].gen == g ==>
                    s.calls[c].index < parties && s.members[g][s.calls[c].index] == c)
            else
              forall c :: 0 <= c < |s.calls| && IsMember(s.calls[c]) && s.calls[c].gen == g ==> s.calls[c].at != Normal
  {
    var s := Run(parties, es).value;
    RunKeepsInv(parties, es);
    forall c | 0 <= c < |s.calls| && IsMember(s.calls[c]) && s.calls[c].gen == g
      ensures g in s.runs ==> s.calls[c].index < parties && s.members[g][s.calls[c].index] == c
      ensures g !in s.runs ==> s.calls[c].at != Normal
    {
      assert CallOk(s, c);
    }
    if g in s.runs {
      forall i | 0 <= i < parties
        ensures s.members[g][i] < |s.calls| && s.calls[s.members[g][i]].index == i && s.calls[s.members[g][i]].gen == g
        ensures g !in s.struck ==>
          s.calls[s.members[g][i]].at in (if g < s.synch then {Normal} else {Normal, Inside})
      {
        assert MemberOk(s, g, i) && CallOk(s, s.members[g][i]);
      }
    }
  }

  predicate HasEnded(s: State, g: nat, c: nat, normally: bool) {
    && c < |s.calls| && IsMember(s.calls[c]) && s.calls[c].gen == g && s.calls[c].at != Inside
    && (normally <==> s.calls[c].at == Normal)
  }

  /** Some call of generation g has returned normally, or has ended otherwise. */
  ghost predicate SomeEnded(s: State, g: nat, normally: bool) {
    exists c: nat :: HasEnded(s, g, c, normally)
  }

  /** The call that ran a command has returned normally, and the one whose wait threw has not. */
  ghost predicate Endings(s: State) {
    && (forall g: nat :: g in s.runs ==> SomeEnded(s, g, true))
    && (forall g: nat :: g in s.struck ==> SomeEnded(s, g, false))
  }

  lemma LoopTouchesOne(s: State, c: nat, expired: bool, throws: bool, d: nat)
    requires c < |s.calls| && d < |s.calls| && c != d
    ensures var t := Loop(s, c, expired, throws); d < |t.calls| && t.calls[d] == s.calls[d]
  {
  }

  /** A call that has ended is touched by no step. */
  lemma EndedStays(s: State, e: Event, g: nat, normally: bool)
    requires Step(s, e).Some? && SomeEnded(s, g, normally)
    ensures SomeEnded(Step(s, e).value, g, normally)
  {
    var d: nat :| HasEnded(s, g, d, normally);
    hide Loop;
    match e {
      case Arrive(c, expired, throws) => LoopTouchesOne(Join(s, c), c, expired, throws, d);
      case Wake(c, expired, throws) => LoopTouchesOne(s, c, expired, throws, d);
      case _ =>
    }
    assert HasEnded(Step(s, e).value, g, d, normally);
  }

  lemma LoopEndings(s: State, c: nat, expired: bool, throws: bool)
    requires c < |s.calls| && s.calls[c].at == Inside && s.calls[c].gen == s.synch
    ensures var t := Loop(s, c, expired, throws);
            && t.struck == s.struck
            && (t.runs == s.runs || (t.runs == s.runs + [s.synch] && SomeEnded(t, s.synch, true)))
  {
    var t := Loop(s, c, expired, throws);
    if t.runs != s.runs { assert HasEnded(t, s.synch, c, true); }
  }

  lemma StrikeEndings(s: State, c: nat)
    requires c < |s.calls| && s.calls[c].at == Inside && s.calls[c].gen == s.synch
    ensures var t := ThrowOut(Strike(s), c);
            && t.runs == s.runs
            && (t.struck == s.struck || (t.struck == s.struck + {s.synch} && SomeEnded(t, s.synch, false)))
  {
    assert HasEnded(ThrowOut(Strike(s), c), s.synch, c, false);
  }

  /** A step runs at most one command, by a call that then returns normally, and strikes a generation by one that
      throws. */
  lemma StepEndings(s: State, e: Event)
    requires Inv(s) && Step(s, e).Some?
    ensures var t := Step(s, e).value;
            && (t.runs == s.runs || (t.runs == s.runs + [s.synch] && SomeEnded(t, s.synch, true)))
            && (t.struck == s.struck || (t.struck == s.struck + {s.synch} && SomeEnded(t, s.synch, false)))
  {
    InvNumbers(s);
    if e.Wake? || e.WaitThrows? { assert CallOk(s, e.c); }
    hide Inv, CallOk, Loop, ThrowOut, Strike, SomeEnded;
    match e
    case Arrive(c, expired, throws) => LoopEndings(Join(s, c), c, expired, throws);
    case Wake(c, expired, throws) => LoopEndings(s, c, expired, throws);
    case WaitThrows(c) => StrikeEndings(s, c);
    case _ =>
  }

  lemma {:induction false} RunKeepsEndings(parties: nat, es: seq<Event>)
    requires parties > 0 && Run(parties, es).Some?
    ensures Endings(Run(parties, es).value)
  {
    hide Inv, Step, SomeEnded;
    if es != [] {
      var s, e := Run(parties, es[..|es| - 1]).value, es[|es| - 1];
      var t := Step(s, e).value;
      RunKeepsInv(parties, es[..|es| - 1]);
      RunKeepsEndings(parties, es[..|es| - 1]);
      StepEndings(s, e);
      forall g: nat | g in t.runs ensures SomeEnded(t, g, true) { if g in s.runs { EndedStays(s, e, g, true); } }
      forall g: nat | g in t.struck ensures SomeEnded(t, g, false) { if g in s.struck { EndedStays(s, e, g, false); } }
    }
  }

  /** Exactly then does it fail: some calls of a generation end normally and others do not if and only if a wait of the
      generation has thrown after its command had run. */
  lemma AllOrNoneFailsIff(parties: nat, es: seq<Event>, g: nat)
    requires parties > 0 && Run(parties, es).Some?
    ensures var s := Run(parties, es).value;
            SomeEnded(s, g, true) && SomeEnded(s, g, false) <==> g in s.struck
  {
    var s := Run(parties, es).value;
    RunKeepsInv(parties, es);
    RunKeepsEndings(parties, es);
    if SomeEnded(s, g, true) && SomeEnded(s, g, false) {
      var c: nat, d: nat :| HasEnded(s, g, c, true) && HasEnded(s, g, d, false);
      assert CallOk(s, c) && CallOk(s, d);
    }
  }

  /** A call still inside a tripped generation returns normally whenever it wakes up, unless a wait of it has thrown. */
  lemma TrippedCallReturnsNormally(parties: nat, es: seq<Event>, c: nat, expired: bool, throws: bool)
    requires parties > 0 && Run(parties, es).Some?
    requires var s := Run(parties, es).value;
             s.triggered && s.synch !in s.struck && c < |s.calls| && s.calls[c].at == Inside
    ensures var t := Step(Run(parties, es).value, Wake(c, expired, throws));
            t.Some? && t.value.calls[c].at == Normal
  {
    RunKeepsInv(parties, es);
  }

  /** A call inside a tripped generation ends otherwise if and only if its own wait throws, or it wakes up after
      another's has. */
  lemma TrippedCallFailsIff(parties: nat, es: seq<Event>, e: Event, c: nat)
    requires parties > 0 && Run(parties, es).Some? && Step(Run(parties, es).value, e).Some?
    requires var s := Run(parties, es).value; s.triggered && c < |s.calls| && s.calls[c].at == Inside
    ensures var s, t := Run(parties, es).value, Step(Run(parties, es).value, e).value;
            && c < |t.calls|
            && (t.calls[c].at !in {Inside, Normal} <==> e == WaitThrows(c) || (s.broken && e.Wake? && e.c == c))
  {
    RunKeepsInv(parties, es);
  }

  /** The barrier is ready for a new generation. */
  predicate Armed(s: State) { s.count == 0 && s.resets == 0 && !s.broken && !s.triggered }

  /** Whether some call of the generation has arrived after another had left, the one of this event included. */
  predicate LateAt(s: State, e: Event) { s.late || (e.Arrive? && s.count > s.resets) }

  /** Whichever event leaves nobody inside, be it a call that wakes up, one that arrives and leaves at once, or one
      whose wait or command throws: it re-arms the barrier if and only if no call of the generation came late and it
      did not end with such an exception.  Then the generation ends and every permit is back; otherwise it goes on. */
  lemma LastToLeaveRearms(parties: nat, es: seq<Event>, e: Event)
    requires parties > 0 && Run(parties, es).Some? && Step(Run(parties, es).value, e).Some?
    requires (e.Arrive? || e.Wake? || e.WaitThrows?) && InsideCount(Step(Run(parties, es).value, e).value) == 0
    ensures var s, t := Run(parties, es).value, Step(Run(parties, es).value, e).value;
            && e.c < |t.calls|
            && (Armed(t) <==> !LateAt(s, e) && t.calls[e.c].at != Threw)
            && (Armed(t) ==> t.synch == s.synch + 1 && t.gate + Count(t.calls, IsPassed) == parties)
            && (!Armed(t) ==> t.synch == s.synch && t.count > 0)
            && (e.Wake? && s.late ==> t.broken == s.broken && t.count == s.count)
  {
    RunKeepsInv(parties, es);
    var s := Run(parties, es).value;
    StepKeepsInv(s, e);
    match e
    case Arrive(c, expired, throws) => JoinKeepsInv(s, c); LoopLeavesLast(Join(s, c), c, expired, throws);
    case Wake(c, expired, throws) => LoopLeavesLast(s, c, expired, throws);
    case WaitThrows(c) =>
  }

  lemma LoopLeavesLast(s: State, c: nat, expired: bool, throws: bool)
    requires Inv(s) && c < |s.calls| && s.calls[c].at == Inside
    requires InsideCount(Loop(s, c, expired, throws)) == 0
    ensures var t := Loop(s, c, expired, throws);
            && |t.calls| == |s.calls|
            && (Armed(t) <==> !s.late && t.calls[c].at != Threw)
            && t.synch == s.synch + One(Armed(t)) && (!Armed(t) ==> t.count > 0)
            && (s.late ==> t.broken == s.broken && t.count == s.count)
  {
    var t := Loop(s, c, expired, throws);
    assert |t.calls| == |s.calls|;
    CountPositive(s.calls, c, IsInside);
    CountsOfUpdate(s, c, t.calls[c]);
    if t.calls[c].at == Inside { CountPositive(t.calls, c, IsInside); }
  }

  /** A tripped generation always ends re-armed: as long as it is current, some call of it is still inside, and none
      of its calls came late. */
  lemma TrippedGenerationEnds(parties: nat, es: seq<Event>)
    requires parties > 0 && Run(parties, es).Some?
    requires var s := Run(parties, es).value; s.triggered && s.synch !in s.struck
    ensures var s := Run(parties, es).value; InsideCount(s) > 0 && s.resets == InsideCount(s) && !s.late
  {
    RunKeepsInv(parties, es);
  }

  /** With several parties a throwing command does not strand the barrier by itself: the others are all still inside. */
  lemma ThrowLeavesOthersInside(s: State, c: nat)
    requires Inv(s) && c < |s.calls| && s.calls[c].at == Inside
    requires !s.broken && !s.triggered && s.count == s.parties
    ensures var t := Loop(s, c, false, true); t.calls[c].at == Threw && InsideCount(t) == s.parties - 1 && !t.late
  {
    CountsOfUpdate(s, c, s.calls[c].(at := Threw));
  }

  // ----- how each section ends

  /** At the gate: a permit lets a waiting call pass, and a call that is refused takes none. */
  lemma GateOutcome(s: State, c: nat)
    requires c < |s.calls|
    ensures Step(s, Start) == Some(s.(calls := s.calls + [Call(AtGate, 0, 0)]))
    ensures Step(s, PassGate(c)).Some? <==> s.calls[c].at == AtGate && s.gate > 0
    ensures Step(s, PassGate(c)).Some? ==>
              Step(s, PassGate(c)).value == s.(gate := s.gate - 1, calls := s.calls[c := s.calls[c].(at := Passed)])
    ensures Step(s, Refuse(c)).Some? <==> s.calls[c].at == AtGate
    ensures Step(s, Refuse(c)).Some? ==>
              Step(s, Refuse(c)).value == s.(calls := s.calls[c := s.calls[c].(at := Refused)])
  {
  }

  /** A call that arrives gets the number of those before it as its index.  In a broken generation it ends as broken.
      Otherwise the last of the parties runs the command, whether its deadline has passed or not, and returns normally
      or throws with it; any other waits, or breaks the generation if its deadline has passed. */
  lemma ArrivalOutcome(parties: nat, es: seq<Event>, c: nat, expired: bool, throws: bool)
    requires parties > 0 && Run(parties, es).Some?
    requires var s := Run(parties, es).value; c < |s.calls| && s.calls[c].at == Passed
    ensures Step(Run(parties, es).value, Arrive(c, expired, throws)).Some?
    ensures var s, t := Run(parties, es).value, Step(Run(parties, es).value, Arrive(c, expired, throws)).value;
            var last := s.count + 1 == parties;
            && |t.calls| == |s.calls| && (forall d :: 0 <= d < |s.calls| && d != c ==> t.calls[d] == s.calls[d])
            && t.calls[c].gen == s.synch && t.calls[c].index == s.count
            && (t.calls[c].at == Broken <==> s.broken)
            && (t.calls[c].at == Normal <==> !s.broken && last && !throws)
            && (t.calls[c].at == Threw <==> !s.broken && last && throws)
            && (t.calls[c].at == TimedOut <==> !s.broken && !last && expired)
            && (t.calls[c].at == Inside <==> !s.broken && !last && !expired)
            && t.runs == s.runs + (if t.calls[c].at == Normal then [s.synch] else [])
            && (t.synch == s.synch ==>
                  && (t.broken <==> t.calls[c].at in {Broken, TimedOut, Threw})
                  && (t.triggered <==> t.calls[c].at == Normal))
  {
    var s := Run(parties, es).value;
    RunKeepsInv(parties, es);
    CountPositive(s.calls, c, IsPassed);
    hide RunsOk, CallOk, MemberOk, Run;
  }

  lemma LoopSettles(s: State, c: nat, expired: bool, throws: bool)
    requires c < |s.calls| && 0 < s.parties && s.count <= s.parties
    ensures var t := Loop(s, c, expired, throws); !t.broken && !t.triggered ==> t.count < t.parties
  {
  }

  /** Between two sections, an open generation is incomplete. */
  lemma {:induction false} OpenIsIncomplete(parties: nat, es: seq<Event>)
    requires parties > 0 && Run(parties, es).Some?
    ensures var s := Run(parties, es).value; !s.broken && !s.triggered ==> s.count < parties
  {
    if es != [] {
      var s := Run(parties, es[..|es| - 1]).value;
      RunKeepsInv(parties, es[..|es| - 1]);
      OpenIsIncomplete(parties, es[..|es| - 1]);
      match es[|es| - 1]
      case Arrive(c, expired, throws) =>
        CountPositive(s.calls, c, IsPassed);
        LoopSettles(Join(s, c), c, expired, throws);
      case Wake(c, expired, throws) => LoopSettles(s, c, expired, throws);
      case _ =>
    }
  }

  /** A call that wakes up, or whose deadline passes: in a broken generation it ends as broken, in a tripped one
      normally, and in an open one it waits again or breaks the generation; it never runs the command. */
  lemma WakeOutcome(parties: nat, es: seq<Event>, c: nat, expired: bool, throws: bool)
    requires parties > 0 && Run(parties, es).Some?
    requires var s := Run(parties, es).value; c < |s.calls| && s.calls[c].at == Inside
    ensures Step(Run(parties, es).value, Wake(c, expired, throws)).Some?
    ensures var s, t := Run(parties, es).value, Step(Run(parties, es).value, Wake(c, expired, throws)).value;
            && |t.calls| == |s.calls| && (forall d :: 0 <= d < |s.calls| && d != c ==> t.calls[d] == s.calls[d])
            && (t.calls[c].at == Broken <==> s.broken)
            && (t.calls[c].at == Normal <==> !s.broken && s.triggered)
            && (t.calls[c].at == TimedOut <==> !s.broken && !s.triggered && expired)
            && (t.calls[c].at == Inside <==> !s.broken && !s.triggered && !expired)
            && t.runs == s.runs
            && (t.synch == s.synch ==>
                  (t.broken <==> s.broken || t.calls[c].at == TimedOut) && t.triggered == s.triggered)
  {
    RunKeepsInv(parties, es);
    OpenIsIncomplete(parties, es);
    hide Inv, Run;
  }

  /** A wait that throws breaks the generation, which goes on with one thread less to leave it. */
  lemma WaitThrowsOutcome(s: State, c: nat)
    requires c < |s.calls| && s.calls[c].at == Inside
    ensures Step(s, WaitThrows(c)).Some?
    ensures var t := Step(s, WaitThrows(c)).value;
            && t.calls == s.calls[c := s.calls[c].(at := Threw)] && t.broken && t.resets == s.resets - 1
            && t.synch == s.synch && t.triggered == s.triggered && t.count == s.count && t.runs == s.runs
  {
  }

  // ----- which generations end, and whether a command can still run

  /** A generation with a late arrival never ends, and its command never runs. */
  lemma LateGenerationNeverEnds(s: State, e: Event)
    requires Inv(s) && s.late && Step(s, e).Some?
    ensures var t := Step(s, e).value; t.late && t.synch == s.synch && t.runs == s.runs
  {
    match e
    case Arrive(c, _, _) => CountPositive(s.calls, c, IsPassed); JoinKeepsInv(s, c);
    case Wake(c, _, _) => CountPositive(s.calls, c, IsInside);
    case _ =>
  }

  /** Nobody is inside to end the generation, which has to be ended before another can begin. */
  predicate Abandoned(s: State) { (s.broken || s.triggered) && InsideCount(s) == 0 }

  /** A generation left by exceptions alone never ends either: the next call to arrive comes late. */
  lemma AbandonedGenerationNeverEnds(s: State, e: Event)
    requires Inv(s) && !s.late && Abandoned(s) && Step(s, e).Some?
    ensures var t := Step(s, e).value; (t.late || Abandoned(t)) && t.synch == s.synch && t.runs == s.runs
  {
    var t := Step(s, e).value;
    match e
    case Start => CountAppend(s.calls, Call(AtGate, 0, 0), IsInside);
    case PassGate(c) => CountsOfUpdate(s, c, t.calls[c]);
    case Refuse(c) => CountsOfUpdate(s, c, t.calls[c]);
    case Arrive(c, _, _) => assert Join(s, c).late;
    case Wake(c, _, _) => CountPositive(s.calls, c, IsInside);
    case WaitThrows(c) => CountPositive(s.calls, c, IsInside);
  }

  /** The state some events later, or None. */
  function RunFrom(s: State, es: seq<Event>): Option<State>
    decreases |es|
  {
    if es == [] then Some(s)
    else
      match Step(s, es[0])
      case None => None
      case Some(t) => RunFrom(t, es[1..])
  }

  lemma RunFromStep(s: State, e: Event, es: seq<Event>)
    requires Step(s, e).Some?
    ensures RunFrom(s, [e] + es) == RunFrom(Step(s, e).value, es)
  {
    assert ([e] + es)[1..] == es;
  }

  /** Some later command can run. */
  ghost predicate CanTrip(s: State) {
    exists es :: RunFrom(s, es).Some? && |RunFrom(s, es).value.runs| > |s.runs|
  }

  lemma CanTripAfter(s: State, e: Event)
    requires Step(s, e).Some? && CanTrip(Step(s, e).value) && |Step(s, e).value.runs| >= |s.runs|
    ensures CanTrip(s)
  {
    var t := Step(s, e).value;
    var es :| RunFrom(t, es).Some? && |RunFrom(t, es).value.runs| > |t.runs|;
    RunFromStep(s, e, es);
  }

  lemma TripsNow(s: State, e: Event)
    requires Step(s, e).Some? && |Step(s, e).value.runs| > |s.runs|
    ensures CanTrip(s)
  {
    RunFromStep(s, e, []);
  }

  lemma {:induction false} NothingTrips(s: State, es: seq<Event>)
    requires Inv(s) && (s.late || Abandoned(s)) && RunFrom(s, es).Some?
    ensures RunFrom(s, es).value.runs == s.runs
    decreases |es|
  {
    hide Inv, Step, Abandoned;
    if es != [] {
      if s.late { LateGenerationNeverEnds(s, es[0]); } else { AbandonedGenerationNeverEnds(s, es[0]); }
      StepKeepsInv(s, es[0]);
      NothingTrips(Step(s, es[0]).value, es[1..]);
    }
  }

  /** The next arrival in an open generation completes it or leaves it open, with one call more. */
  lemma ArrivalCompletesOrStaysOpen(s: State, c: nat)
    requires Inv(s) && !s.broken && !s.triggered && s.count < s.parties && c < |s.calls| && s.calls[c].at == Passed
    ensures var r := Step(s, Arrive(c, false, false));
            && r.Some? && Inv(r.value)
            && if s.count + 1 == s.parties then |r.value.runs| > |s.runs|
               else !r.value.broken && !r.value.triggered && r.value.count == s.count + 1 && r.value.runs == s.runs
  {
    StepKeepsInv(s, Arrive(c, false, false));
    hide Inv;
  }

  /** A new call passes the gate while there is a permit. */
  lemma AnotherPassesTheGate(s: State)
    requires Inv(s) && s.gate > 0
    ensures var r := Step(s, Start);
            && r.Some? && Inv(r.value) && r.value.runs == s.runs
            && var u := Step(r.value, PassGate(|s.calls|));
            && u.Some? && Inv(u.value) && Count(u.value.calls, IsPassed) > 0
            && u.value == s.(calls := u.value.calls, gate := s.gate - 1)
  {
    var n, t := |s.calls|, Step(s, Start).value;
    StepKeepsInv(s, Start);
    StepKeepsInv(t, PassGate(n));
    CountPositive(Step(t, PassGate(n)).value.calls, n, IsPassed);
    hide Inv;
  }

  /** An open generation can be completed: the calls that have passed the gate arrive, then others come. */
  lemma {:induction false} OpenCanTrip(s: State)
    requires Inv(s) && !s.broken && !s.triggered
    ensures CanTrip(s)
    decreases s.parties - s.count, One(Count(s.calls, IsPassed) == 0)
  {
    hide CanTrip, CallOk, MemberOk, RunsOk;
    if s.count == s.parties {
      var c := CountWitness(s.calls, IsInside);
      TripsNow(s, Wake(c, false, false));
    } else if Count(s.calls, IsPassed) > 0 {
      var c := CountWitness(s.calls, IsPassed);
      OpenCanTripAt(s, c);
    } else {
      AnotherPassesTheGate(s);
      var t := Step(s, Start).value;
      var u := Step(t, PassGate(|s.calls|)).value;
      OpenCanTrip(u);
      CanTripAfter(t, PassGate(|s.calls|));
      CanTripAfter(s, Start);
    }
  }

  lemma {:induction false} OpenCanTripAt(s: State, c: nat)
    requires Inv(s) && !s.broken && !s.triggered && s.count < s.parties && c < |s.calls| && s.calls[c].at == Passed
    ensures CanTrip(s)
    decreases s.parties - s.count, 0, 0
  {
    hide Inv, CanTrip, Step;
    var e := Arrive(c, false, false);
    ArrivalCompletesOrStaysOpen(s, c);
    if s.count + 1 == s.parties {
      TripsNow(s, e);
    } else {
      OpenCanTrip(Step(s, e).value);
      CanTripAfter(s, e);
    }
  }

  /** A closed one can be left by everybody inside, and ends. */
  lemma {:induction false} ClosedCanTrip(s: State)
    requires Inv(s) && (s.broken || s.triggered) && !s.late && InsideCount(s) > 0
    ensures CanTrip(s)
    decreases InsideCount(s)
  {
    var c := CountWitness(s.calls, IsInside);
    var e := Wake(c, false, false);
    var t := Step(s, e).value;
    StepKeepsInv(s, e);
    CountsOfUpdate(s, c, t.calls[c]);
    if InsideCount(t) > 0 { ClosedCanTrip(t); } else { OpenCanTrip(t); }
    CanTripAfter(s, e);
  }

  /** In every reachable state, a command can still run if and only if no call of the current generation came late and
      the generation, if it is broken or tripped, still has somebody inside to end it. */
  lemma CanTripIff(parties: nat, es: seq<Event>)
    requires parties > 0 && Run(parties, es).Some?
    ensures var s := Run(parties, es).value; CanTrip(s) <==> !s.late && !Abandoned(s)
  {
    RunKeepsInv(parties, es);
    var s := Run(parties, es).value;
    if s.late || Abandoned(s) {
      forall later | RunFrom(s, later).Some? ensures RunFrom(s, later).value.runs == s.runs { NothingTrips(s, later); }
    } else if s.broken || s.triggered {
      ClosedCanTrip(s);
    } else {
      OpenCanTrip(s);
    }
  }

  // ----- the generations that never end

  /** Nobody is inside, nobody can come in, and the barrier is not armed. */
  predicate Stranded(s: State) {
    InsideCount(s) == 0 && Count(s.calls, IsPassed) == 0 && s.gate == 0 && s.count > 0 && s.broken
  }

  lemma StrandedForever(s: State, e: Event)
    requires Stranded(s) && Step(s, e).Some?
    ensures Stranded(Step(s, e).value)
  {
    match e
    case Start =>
      CountAppend(s.calls, Call(AtGate, 0, 0), IsInside);
      CountAppend(s.calls, Call(AtGate, 0, 0), IsPassed);
    case PassGate(c) =>
    case Refuse(c) => CountsOfUpdate(s, c, s.calls[c].(at := Refused));
    case Arrive(c, _, _) => CountPositive(s.calls, c, IsPassed);
    case Wake(c, _, _) => CountPositive(s.calls, c, IsInside);
    case WaitThrows(c) => CountPositive(s.calls, c, IsInside);
  }

  lemma RunStep(parties: nat, es: seq<Event>, e: Event, s: State, t: State)
    requires parties > 0 && Run(parties, es) == Some(s) && Step(s, e) == Some(t)
    ensures Run(parties, es + [e]) == Some(t)
  {
    assert (es + [e])[..|es + [e]| - 1] == es;
  }

  /** The first generation, with the calls at the given places: the first `count` of them have arrived. */
  function First(parties: nat, gate: nat, count: nat, resets: nat, broken: bool, ats: seq<At>, late: bool): State
    requires count <= |ats|
  {
    State(parties, gate, count, resets, 0, broken, false,
          seq(|ats|, i requires 0 <= i < |ats| => Call(ats[i], 0, if i < count then i else 0)),
          [seq(count, i => i)], [], late, {})
  }

  lemma InitIsFirst(parties: nat)
    ensures Run(parties, []) == Some(Init(parties)) && Init(parties) == First(parties, parties, 0, 0, false, [], false)
  {
    assert Init(parties).members[0] == First(parties, parties, 0, 0, false, [], false).members[0];
  }

  lemma FirstStep(es: seq<Event>, s: State, e: Event, t: State) returns (es': seq<Event>)
    requires s.parties > 0 && Run(s.parties, es) == Some(s) && Step(s, e).Some?
    requires |t.members| == 1
    requires var r := Step(s, e).value;
             && r.(calls := [], members := []) == t.(calls := [], members := [])
             && |r.calls| == |t.calls| && (forall i :: 0 <= i < |t.calls| ==> r.calls[i] == t.calls[i])
             && |r.members| == 1 && r.members[0] == t.members[0]
    ensures Run(t.parties, es') == Some(t)
  {
    hide Step, Run;
    var r := Step(s, e).value;
    assert r.calls == t.calls && r.members == t.members;
    RunStep(s.parties, es, e, s, t);
    es' := es + [e];
  }

  lemma NobodyThere(s: State)
    requires forall c :: 0 <= c < |s.calls| ==> !IsInside(s.calls[c]) && !IsPassed(s.calls[c])
    ensures InsideCount(s) == 0 && Count(s.calls, IsPassed) == 0
  {
    if InsideCount(s) > 0 { var c := CountWitness(s.calls, IsInside); }
    if Count(s.calls, IsPassed) > 0 { var c := CountWitness(s.calls, IsPassed); }
  }

  /** With one party, a command that throws strands the barrier. */
  lemma ThrowStrandsOneParty() returns (es: seq<Event>)
    ensures Run(1, es).Some? && Stranded(Run(1, es).value)
  {
    hide Run;
    es := [];
    InitIsFirst(1);
    es := FirstStep(es, First(1, 1, 0, 0, false, [], false), Start, First(1, 1, 0, 0, false, [AtGate], false));
    es := FirstStep(es, First(1, 1, 0, 0, false, [AtGate], false), PassGate(0),
                    First(1, 0, 0, 0, false, [Passed], false));
    es := FirstStep(es, First(1, 0, 0, 0, false, [Passed], false), Arrive(0, false, true),
                    First(1, 0, 1, 0, true, [Threw], false));
    NobodyThere(First(1, 0, 1, 0, true, [Threw], false));
  }

  lemma TwoPassTheGate() returns (es: seq<Event>)
    ensures Run(3, es) == Some(First(3, 1, 0, 0, false, [Passed, Passed], false))
  {
    hide Run;
    var s0, s1 := First(3, 3, 0, 0, false, [], false), First(3, 3, 0, 0, false, [AtGate], false);
    var s2, s3 := First(3, 2, 0, 0, false, [Passed], false), First(3, 2, 0, 0, false, [Passed, AtGate], false);
    var s4 := First(3, 1, 0, 0, false, [Passed, Passed], false);
    es := [];
    InitIsFirst(3);
    es := FirstStep(es, s0, Start, s1);
    es := FirstStep(es, s1, PassGate(0), s2);
    es := FirstStep(es, s2, Start, s3);
    es := FirstStep(es, s3, PassGate(1), s4);
  }

  lemma ThreePassTheGate() returns (es: seq<Event>)
    ensures Run(3, es) == Some(First(3, 0, 0, 0, false, [Passed, Passed, Passed], false))
  {
    hide Run;
    var s4 := First(3, 1, 0, 0, false, [Passed, Passed], false);
    var s5 := First(3, 1, 0, 0, false, [Passed, Passed, AtGate], false);
    es := TwoPassTheGate();
    es := FirstStep(es, s4, Start, s5);
    es := FirstStep(es, s5, PassGate(2), First(3, 0, 0, 0, false, [Passed, Passed, Passed], false));
  }

  lemma OneArrives() returns (es: seq<Event>)
    ensures Run(3, es) == Some(First(3, 0, 1, 1, false, [Inside, Passed, Passed], false))
  {
    hide Run;
    var s0 := First(3, 0, 0, 0, false, [Passed, Passed, Passed], false);
    es := ThreePassTheGate();
    es := FirstStep(es, s0, Arrive(0, false, false), First(3, 0, 1, 1, false, [Inside, Passed, Passed], false));
  }

  lemma TwoArrive() returns (es: seq<Event>)
    ensures Run(3, es) == Some(First(3, 0, 2, 2, false, [Inside, Inside, Passed], false))
  {
    hide Run;
    var s1 := First(3, 0, 1, 1, false, [Inside, Passed, Passed], false);
    es := OneArrives();
    es := FirstStep(es, s1, Arrive(1, false, false), First(3, 0, 2, 2, false, [Inside, Inside, Passed], false));
  }

  lemma OneTimesOut() returns (es: seq<Event>)
    ensures Run(3, es) == Some(First(3, 0, 2, 1, true, [TimedOut, Inside, Passed], false))
  {
    hide Run;
    var s2 := First(3, 0, 2, 2, false, [Inside, Inside, Passed], false);
    es := TwoArrive();
    es := FirstStep(es, s2, Wake(0, true, false), First(3, 0, 2, 1, true, [TimedOut, Inside, Passed], false));
  }

  lemma ThirdComesLate() returns (es: seq<Event>)
    ensures Run(3, es) == Some(First(3, 0, 3, 2, true, [TimedOut, Inside, Broken], true))
  {
    hide Run;
    var s0 := First(3, 0, 2, 1, true, [TimedOut, Inside, Passed], false);
    es := OneTimesOut();
    es := FirstStep(es, s0, Arrive(2, false, false), First(3, 0, 3, 2, true, [TimedOut, Inside, Broken], true));
  }

  /** With three parties, one timeout before the third arrives is enough: the third overwrites resets_ with a count that
      includes the thread already gone, so resets_ never comes down to 0. */
  lemma LateArrivalStrands() returns (es: seq<Event>)
    ensures Run(3, es).Some? && Stranded(Run(3, es).value)
  {
    hide Run;
    var s1 := First(3, 0, 3, 2, true, [TimedOut, Inside, Broken], true);
    var s2 := First(3, 0, 3, 1, true, [TimedOut, Broken, Broken], true);
    es := ThirdComesLate();
    es := FirstStep(es, s1, Wake(1, false, false), s2);
    NobodyThere(s2);
  }

  lemma TwoPartiesPassTheGate() returns (es: seq<Event>)
    ensures Run(2, es) == Some(First(2, 0, 0, 0, false, [Passed, Passed], false))
  {
    hide Run;
    var s0, s1 := First(2, 2, 0, 0, false, [], false), First(2, 2, 0, 0, false, [AtGate], false);
    var s2, s3 := First(2, 2, 0, 0, false, [AtGate, AtGate], false), First(2, 1, 0, 0, false, [Passed, AtGate], false);
    es := [];
    InitIsFirst(2);
    es := FirstStep(es, s0, Start, s1);
    es := FirstStep(es, s1, Start, s2);
    es := FirstStep(es, s2, PassGate(0), s3);
    es := FirstStep(es, s3, PassGate(1), First(2, 0, 0, 0, false, [Passed, Passed], false));
  }

  /** With two parties: the second to arrive runs the command and returns, and then the wait of the first throws. */
  lemma CancelledWaitSplits() returns (es: seq<Event>)
    ensures Run(2, es).Some?
    ensures var s := Run(2, es).value;
            |s.calls| == 2 && s.calls[0] == Call(Threw, 0, 0) && s.calls[1] == Call(Normal, 0, 1) && s.runs == [0]
  {
    hide Run;
    var s1 := First(2, 0, 1, 1, false, [Inside, Passed], false);
    es := TwoPartiesPassTheGate();
    es := FirstStep(es, First(2, 0, 0, 0, false, [Passed, Passed], false), Arrive(0, false, false), s1);
    var s2 := Step(s1, Arrive(1, false, false)).value;
    RunStep(2, es, Arrive(1, false, false), s1, s2);
    RunStep(2, es + [Arrive(1, false, false)], WaitThrows(0), s2, Step(s2, WaitThrows(0)).value);
    es := es + [Arrive(1, false, false)] + [WaitThrows(0)];
  }

  // ----- the class

  class Barrier {
    const parties: nat
    var gate: int      // the permits of entryGate_
    var count: nat
    var resets: int
    var synch: nat
    var broken: bool
    var triggered: bool

    // the state of the machine, with the calls and the histories
    ghost var state: State

    ghost predicate Agrees()
      reads this
    {
      && parties == state.parties && gate == state.gate && count == state.count && resets == state.resets
      && synch == state.synch && broken == state.broken && triggered == state.triggered
    }

    /** The fields are those of the state, which keeps the invariant. */
    ghost predicate Valid()
      reads this
    {
      Agrees() && Inv(state)
    }

    constructor (parties: nat)
      requires parties > 0
      ensures Valid() && state == Init(parties)
    {
      this.parties, gate, count, resets, synch := parties, parties, 0, 0, 0;
      broken, triggered := false, false;
      state := Init(parties);
      InitInv(parties);
    }

    /** The section of barrier from the lock to the wait, or to the end of the call. */
    method Enter(ghost c: nat, expired: bool, throws: bool) returns (at: At, index: nat)
      requires Valid() && c < |state.calls| && state.calls[c].at == Passed
      modifies this
      ensures Valid() && Step(old(state), Arrive(c, expired, throws)) == Some(state)
      ensures c < |state.calls| && at == state.calls[c].at && index == state.calls[c].index == old(count)
    {
      JoinKeepsInv(state, c);
      InvNumbers(state);
      LoopKeepsIndex(Join(state, c), c, expired, throws);
      hide Inv, Loop;
      index := count;
      count := count + 1;
      resets := count;
      state := Join(state, c);
      at := Await(c, expired, throws);
    }

    /** The section of barrier after a wait. */
    method Resume(ghost c: nat, expired: bool, throws: bool) returns (at: At)
      requires Valid() && c < |state.calls| && state.calls[c].at == Inside
      modifies this
      ensures Valid() && Step(old(state), Wake(c, expired, throws)) == Some(state)
      ensures c < |state.calls| && at == state.calls[c].at
    {
      hide Inv, Loop;
      at := Await(c, expired, throws);
    }

    /** The section of barrier after a wait that has thrown. */
    method WaitThrew(ghost c: nat)
      requires Valid() && c < |state.calls| && state.calls[c].at == Inside
      modifies this
      ensures Valid() && Step(old(state), WaitThrows(c)) == Some(state)
    {
      StepKeepsInv(state, WaitThrows(c));
      hide Inv;
      broken, resets := true, resets - 1;
      state := ThrowOut(Strike(state), c);
    }

    /** The loop, left at a wait, with an exception of the command, or through the end of the call. */
    method Await(ghost c: nat, expired: bool, throws: bool) returns (at: At)
      requires Valid() && c < |state.calls| && state.calls[c].at == Inside
      modifies this
      ensures Valid() && state == Loop(old(state), c, expired, throws)
      ensures c < |state.calls| && at == state.calls[c].at
    {
      LoopKeepsInv(state, c, expired, throws);
      hide Inv, Leave;
      ghost var s := state;
      var timeout := false;
      while !(broken || triggered)
        invariant Agrees() && c < |state.calls| && count == s.count
        invariant
          || (state == s && !timeout)
          || (state == s.(broken := true) && !s.broken && !s.triggered && count != parties && expired && timeout)
          || (state == Trip(s) && !s.broken && !s.triggered && count == parties && !throws && !timeout)
        decreases if broken || triggered then 0 else 1
      {
        if count != parties {
          if !expired {
            assert s.calls[c := s.calls[c].(at := Inside)] == s.calls;
            return Inside;
          }
          timeout, broken, state := true, true, s.(broken := true);
        } else if throws {
          broken, resets, state := true, resets - 1, ThrowOut(s, c);
          return Threw;
        } else {
          triggered, state := true, Trip(s);
        }
      }
      at := Depart(c, timeout);
    }

    /** The end of the call, which re-arms the barrier if nobody else is left. */
    method Depart(ghost c: nat, timeout: bool) returns (at: At)
      requires Agrees() && c < |state.calls|
      modifies this
      ensures Agrees() && state == Leave(old(state), c, timeout) && c < |state.calls| && at == state.calls[c].at
    {
      LeaveFields(state, c, timeout);
      hide Leave;
      at := if timeout then TimedOut else if broken then Broken else Normal;
      state := Leave(state, c, timeout);
      resets := resets - 1;
      if resets == 0 {
        gate := gate + count;
        broken, triggered := false, false;
        synch, count := synch + 1, 0;
      }
    }
  }

  /** The fields after the end of a call */
  lemma LeaveFields(s: State, c: nat, timeout: bool)
    requires c < |s.calls|
    ensures var t := Leave(s, c, timeout);
      && |t.calls| == |s.calls| && t.parties == s.parties && t.resets == s.resets - 1
      && t.calls[c].at == (if timeout then TimedOut else if s.broken then Broken else Normal)
      && if s.resets == 1 then
           t.gate == s.gate + s.count && t.count == 0 && t.synch == s.synch + 1 && !t.broken && !t.triggered
         else
           && t.gate == s.gate && t.count == s.count && t.synch == s.synch
           && t.broken == s.broken && t.triggered == s.triggered
  {
  }

  lemma InitInv(parties: nat)
    requires parties > 0
    ensures Inv(Init(parties))
  {
    RunKeepsInv(parties, []);
  }

  lemma InvNumbers(s: State)
    requires Inv(s)
    ensures |s.members| == s.synch + 1 && s.resets >= 0 && s.gate >= 0
  {
  }

  lemma LoopKeepsIndex(s: State, c: nat, expired: bool, throws: bool)
    requires c < |s.calls|
    ensures var t := Loop(s, c, expired, throws); |t.calls| == |s.calls| && t.calls[c].index == s.calls[c].index
  {
  }
}
