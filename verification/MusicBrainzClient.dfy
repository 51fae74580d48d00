/** The MusicBrainz client (internal/musicbrainz/client.go): any number of concurrent calls share
    one gate, a next start time and a retry deadline. Every step of a call is one action and
    carries the clock reading it uses. */
module MusicBrainzClient {
  import opened Common

  /** Where a call stands: waiting for the gate, at the top of doAttempt's loop, with the time
      `at` it read there, with its request in flight, or handling the response with the gate
      given back. */
  datatype Pc = Waiting | AtTop | Read(at: int) | Flying | Handling(transient: bool, header: int) | Done

  datatype Call = Call(pc: Pc, attempt: nat, requests: nat)

  /** `floor` is the latest deadline installed while holding the gate and `starts` the recorded
      request starts; both only describe the run. */
  datatype State = State(interval: int, maxRetries: int, gate: bool, nextStart: int, deadline: int, now: int,
                         calls: map<int, Call>, floor: int, starts: seq<int>)

  datatype Action =
    | Begin(id: int, at: int, cached: Option<int>)
    | Enter(id: int, at: int)
    | ReadTimes(id: int, at: int)
    | Clock(id: int, at: int)
    | Respond(id: int, at: int, transient: bool, header: int)
    | Fail(id: int, at: int)
    | Handle(id: int, at: int, stored: bool)

  predicate Holds(c: Call) {
    c.pc.AtTop? || c.pc.Read? || c.pc.Flying?
  }

  predicate Enabled(s: State, a: Action) {
    && a.at >= s.now
    && if a.Begin? then a.id !in s.calls
       else
         && a.id in s.calls
         && var pc := s.calls[a.id].pc;
            match a
            case Enter(_, _) => pc.Waiting? && s.gate
            case ReadTimes(_, _) => pc.AtTop?
            case Clock(_, _) => pc.Read?
            case Respond(_, _, _, _) => pc.Flying?
            case Fail(_, _) => !pc.Done?
            case Handle(_, _, _) => pc.Handling?
            case _ => false
  }

  /** Retry-After when it says something, exponential backoff otherwise. */
  function Delay(s: State, attempt: nat, header: int): int {
    if header > 0 then header else Power(attempt) * s.interval
  }

  /** extendRetry. */
  function Extended(s: State, at: int): State {
    if at > s.deadline then s.(deadline := at) else s
  }

  function With(s: State, id: int, c: Call): State {
    s.(calls := s.calls[id := c])
  }

  /** A start the client allows: the clock has reached the time read under the gate. */
  function Clocked(s: State, id: int, at: int): State
    requires id in s.calls && s.calls[id].pc.Read?
  {
    var c := s.calls[id];
    if c.pc.at <= at then
      With(s, id, c.(pc := Flying, requests := c.requests + 1)).(nextStart := at + s.interval, starts := s.starts + [at])
    else With(s, id, c.(pc := AtTop))
  }

  /** The end of doAttempt: provider pressure is installed before the gate is given back. */
  function Responded(s: State, id: int, at: int, transient: bool, header: int): State
    requires id in s.calls
  {
    var c := s.calls[id];
    var n := With(s, id, c.(pc := Handling(transient, header))).(gate := true);
    if transient then Extended(n, at + Delay(s, c.attempt, header)).(floor := Max(s.floor, at + Delay(s, c.attempt, header))) else n
  }

  /** GetJSON after an attempt: extend the deadline again, then retry or give up; a failure to
      store the backoff ends the call. */
  function Handled(s: State, id: int, at: int, stored: bool): State
    requires id in s.calls && s.calls[id].pc.Handling?
  {
    var c := s.calls[id];
    if !c.pc.transient then With(s, id, c.(pc := Done))
    else
      var n := Extended(s, at + Delay(s, c.attempt, c.pc.header));
      if stored && c.attempt < s.maxRetries then With(n, id, c.(pc := Waiting, attempt := c.attempt + 1)) else With(n, id, c.(pc := Done))
  }

  function Apply(s: State, a: Action): State
    requires Enabled(s, a)
  {
    var n := s.(now := a.at);
    match a
    case Begin(id, _, cached) =>
      if cached.Some? then With(Extended(n, cached.value), id, Call(Done, 0, 0)) else With(n, id, Call(Waiting, 0, 0))
    case Enter(id, _) => With(n, id, n.calls[id].(pc := AtTop)).(gate := false)
    case ReadTimes(id, _) => With(n, id, n.calls[id].(pc := Read(Max(n.nextStart, n.deadline))))
    case Clock(id, at) => Clocked(n, id, at)
    case Respond(id, at, transient, header) => Responded(n, id, at, transient, header)
    case Fail(id, _) => With(n, id, n.calls[id].(pc := Done)).(gate := n.gate || Holds(n.calls[id]))
    case Handle(id, at, stored) => Handled(n, id, at, stored)
  }

  predicate Initial(s: State) {
    s.interval >= 0 && s.gate && s.calls == map[] && s.starts == [] && s.nextStart <= s.now && s.deadline <= s.now && s.floor == s.deadline
  }

  // ---------------------------------------------------------------------
  // Invariants

  /** The gate has one owner at most, and none while it is free. */
  predicate OneOwner(s: State) {
    && (forall i, j :: i in s.calls && j in s.calls && Holds(s.calls[i]) && Holds(s.calls[j]) ==> i == j)
    && (s.gate ==> forall i :: i in s.calls ==> !Holds(s.calls[i]))
  }

  /** The times read under the gate stay current until the start. */
  predicate TimesHeld(s: State) {
    && s.floor <= s.deadline
    && (s.starts != [] ==> s.nextStart == s.starts[|s.starts| - 1] + s.interval)
    && (forall i :: i in s.calls && s.calls[i].pc.Read? ==> s.calls[i].pc.at >= s.nextStart && s.calls[i].pc.at >= s.floor)
  }

  predicate Spaced(s: State) {
    forall i :: 0 < i < |s.starts| ==> s.starts[i] >= s.starts[i - 1] + s.interval
  }

  function RetryBound(s: State): int {
    Max(0, s.maxRetries)
  }

  /** A call has made one request for each attempt it finished, and one for the one in flight. */
  predicate CallBounded(s: State, c: Call) {
    && c.attempt <= RetryBound(s)
    && (if c.pc.Waiting? || c.pc.AtTop? || c.pc.Read? then c.requests <= c.attempt else c.requests <= c.attempt + 1)
  }

  predicate Bounded(s: State) {
    forall i :: i in s.calls ==> CallBounded(s, s.calls[i])
  }

  predicate Inv(s: State) {
    OneOwner(s) && TimesHeld(s) && Spaced(s) && Bounded(s)
  }

  lemma {:induction false} OwnerStep(s: State, a: Action)
    requires OneOwner(s) && Enabled(s, a)
    ensures OneOwner(Apply(s, a))
  {
    hide Delay;
  }

  lemma {:induction false} TimesStep(s: State, a: Action)
    requires OneOwner(s) && TimesHeld(s) && Enabled(s, a)
    ensures TimesHeld(Apply(s, a))
  {
    hide Delay;
  }

  lemma {:induction false} SpacedStep(s: State, a: Action)
    requires TimesHeld(s) && Spaced(s) && Enabled(s, a)
    ensures Spaced(Apply(s, a))
  {
    hide Delay;
  }

  lemma {:induction false} BoundedStep(s: State, a: Action)
    requires Bounded(s) && Enabled(s, a)
    ensures Bounded(Apply(s, a))
  {
    hide Delay;
  }

  // ---------------------------------------------------------------------
  // Runs

  ghost predicate Run(ss: seq<State>, acts: seq<Action>) {
    && |ss| == |acts| + 1 && Initial(ss[0])
    && (forall i :: 0 <= i < |acts| ==> Enabled(ss[i], acts[i]) && ss[i + 1] == Apply(ss[i], acts[i]))
  }

  lemma {:induction false} InvAlong(ss: seq<State>, acts: seq<Action>, k: nat)
    requires Run(ss, acts) && k <= |acts|
    ensures Inv(ss[k])
  {
    if k > 0 {
      InvAlong(ss, acts, k - 1);
      assert Enabled(ss[k - 1], acts[k - 1]) && ss[k] == Apply(ss[k - 1], acts[k - 1]) by {
        hide Enabled, Apply;
      }
      hide OneOwner, TimesHeld, Spaced, Bounded, Apply, Enabled;
      OwnerStep(ss[k - 1], acts[k - 1]);
      TimesStep(ss[k - 1], acts[k - 1]);
      SpacedStep(ss[k - 1], acts[k - 1]);
      BoundedStep(ss[k - 1], acts[k - 1]);
    }
  }

  /** What steps may do to the shared times and the record. */
  ghost predicate Grows(s: State, n: State) {
    && s.deadline <= n.deadline && s.floor <= n.floor && n.interval == s.interval && n.maxRetries == s.maxRetries
    && |s.starts| <= |n.starts| && n.starts[..|s.starts|] == s.starts
    && (forall i :: |s.starts| <= i < |n.starts| ==> n.starts[i] >= s.floor)
  }

  lemma {:induction false} StepGrows(s: State, a: Action)
    requires Inv(s) && Enabled(s, a)
    ensures Grows(s, Apply(s, a))
  {
    hide OneOwner, Spaced, Bounded, Delay;
  }

  lemma {:induction false} GrowsTrans(s: State, m: State, n: State)
    requires Grows(s, m) && Grows(m, n)
    ensures Grows(s, n)
  {
    assert n.starts[..|s.starts|] == n.starts[..|m.starts|][..|s.starts|];
    forall i | |s.starts| <= i < |n.starts|
      ensures n.starts[i] >= s.floor
    {
      if i < |m.starts| {
        assert n.starts[i] == n.starts[..|m.starts|][i];
      }
    }
  }

  lemma {:induction false} RunStep(ss: seq<State>, acts: seq<Action>, i: nat)
    requires Run(ss, acts) && i < |acts|
    ensures Enabled(ss[i], acts[i]) && ss[i + 1] == Apply(ss[i], acts[i])
  {
    hide Enabled, Apply, Initial;
  }

  lemma {:induction false} ChainGrows(ss: seq<State>, i: nat, j: nat)
    requires i <= j < |ss| && forall k :: i <= k < j ==> Grows(ss[k], ss[k + 1])
    ensures Grows(ss[i], ss[j])
  {
    if i < j {
      hide Grows;
      ChainGrows(ss, i, j - 1);
      assert Grows(ss[j - 1], ss[j - 1 + 1]);
      GrowsTrans(ss[i], ss[j - 1], ss[j]);
    }
  }

  lemma {:induction false} RunGrows(ss: seq<State>, acts: seq<Action>, i: nat, j: nat)
    requires Run(ss, acts) && i <= j <= |acts|
    ensures Grows(ss[i], ss[j])
  {
    hide Inv, Apply, Enabled, Grows, Initial;
    forall k | i <= k < j
      ensures Grows(ss[k], ss[k + 1])
    {
      InvAlong(ss, acts, k);
      RunStep(ss, acts, k);
      StepGrows(ss[k], acts[k]);
    }
    ChainGrows(ss, i, j);
  }

  /** The rate limit: with any number of concurrent calls, n requests take at least n - 1
      intervals. */
  lemma {:induction false} StartsAreSpaced(ss: seq<State>, acts: seq<Action>, k: nat, i: nat, j: nat)
    requires Run(ss, acts) && k <= |acts| && i <= j < |ss[k].starts|
    ensures ss[k].starts[j] >= ss[k].starts[i] + (j - i) * ss[k].interval
    decreases j
  {
    if i < j {
      StartsAreSpaced(ss, acts, k, i, j - 1);
      InvAlong(ss, acts, k);
      hide OneOwner, TimesHeld, Bounded, Run;
      assert (j - i) * ss[k].interval == (j - 1 - i) * ss[k].interval + ss[k].interval;
    }
  }

  /** Provider pressure holds: once a call has read a response that asks for a delay, no request
      of any call starts before that delay is over. */
  lemma {:induction false} NoStartDuringBackoff(ss: seq<State>, acts: seq<Action>, i: nat, k: nat, n: nat)
    requires Run(ss, acts) && i < k <= |acts| && acts[i].Respond? && acts[i].transient
    requires |ss[i].starts| <= n < |ss[k].starts|
    ensures acts[i].header > 0 ==> ss[k].starts[n] >= acts[i].at + acts[i].header
    ensures acts[i].header <= 0 ==> ss[k].starts[n] >= acts[i].at + Power(ss[i].calls[acts[i].id].attempt) * ss[i].interval
  {
    RunGrows(ss, acts, i + 1, k);
    RunStep(ss, acts, i);
    hide Run;
  }

  /** After a response that asks for a delay the call tries again exactly while it has retries left
      and the backoff was stored; after any other response it is over. */
  lemma {:induction false} RetriesExactlyWhileAllowed(ss: seq<State>, acts: seq<Action>, i: nat, before: nat)
    requires Run(ss, acts) && before < i < |acts| && acts[i].Handle? && acts[before].Respond? && acts[before].id == acts[i].id
    requires forall j :: before < j < i ==> acts[j].id != acts[i].id
    ensures var was, now := ss[before].calls[acts[i].id], ss[i + 1].calls[acts[i].id];
            && (acts[before].transient && acts[i].stored && was.attempt < ss[i].maxRetries <==> now.pc.Waiting?)
            && (now.pc.Waiting? ==> now.attempt == was.attempt + 1 && now.requests == was.requests)
            && (!now.pc.Waiting? ==> now.pc.Done?)
  {
    RunStep(ss, acts, before);
    CallStays(ss, acts, before + 1, i, acts[i].id);
    RunStep(ss, acts, i);
    RunGrows(ss, acts, before, i);
    hide Run, Delay;
  }

  /** A call changes only by its own steps. */
  lemma {:induction false} CallStays(ss: seq<State>, acts: seq<Action>, i: nat, j: nat, id: int)
    requires Run(ss, acts) && i <= j <= |acts| && id in ss[i].calls && forall k :: i <= k < j ==> acts[k].id != id
    ensures id in ss[j].calls && ss[j].calls[id] == ss[i].calls[id]
  {
    if i < j {
      CallStays(ss, acts, i, j - 1, id);
      RunStep(ss, acts, j - 1);
      hide Run, Delay, Enabled;
    }
  }

  /** The shared retry deadline never moves back. */
  lemma {:induction false} DeadlineNeverDecreases(ss: seq<State>, acts: seq<Action>, i: nat, j: nat)
    requires Run(ss, acts) && i <= j <= |acts|
    ensures ss[i].deadline <= ss[j].deadline
  {
    RunGrows(ss, acts, i, j);
    hide Run;
  }

  /** One call makes at most max(0, maxRetries) + 1 requests. */
  lemma {:induction false} RequestsAreBounded(ss: seq<State>, acts: seq<Action>, k: nat, id: int)
    requires Run(ss, acts) && k <= |acts| && id in ss[k].calls
    ensures ss[k].calls[id].requests <= RetryBound(ss[k]) + 1
  {
    InvAlong(ss, acts, k);
    hide Run, OneOwner, TimesHeld, Spaced;
  }

  /** Never two requests in flight at once. */
  lemma {:induction false} OneRequestInFlight(ss: seq<State>, acts: seq<Action>, k: nat, i: int, j: int)
    requires Run(ss, acts) && k <= |acts| && i in ss[k].calls && j in ss[k].calls
    requires ss[k].calls[i].pc.Flying? && ss[k].calls[j].pc.Flying?
    ensures i == j
  {
    InvAlong(ss, acts, k);
    hide Run, TimesHeld, Spaced, Bounded;
  }

  // ---------------------------------------------------------------------
  // The client itself

  /** Client, one method for each step of a call. */
  class Client {
    const interval: int
    const maxRetries: int
    var gate: bool
    var nextStart: int
    var retryDeadline: int
    var clock: int
    var calls: map<int, Call>
    ghost var floor: int
    ghost var starts: seq<int>

    ghost function View(): State
      reads this
    {
      State(interval, maxRetries, gate, nextStart, retryDeadline, clock, calls, floor, starts)
    }

    constructor (spacing: int, retries: int, start: int)
      requires spacing >= 0
      ensures Initial(View()) && interval == spacing && clock == start
      ensures maxRetries == (if retries == 0 then 2 else retries)
    {
      interval := spacing;
      maxRetries := if retries == 0 then 2 else retries;
      gate, nextStart, retryDeadline, clock, calls := true, start, start, start, map[];
      floor, starts := start, [];
    }

    method ExtendRetry(at: int)
      modifies this`retryDeadline
      ensures View() == Extended(old(View()), at)
      ensures retryDeadline >= at && retryDeadline >= old(retryDeadline) && (retryDeadline == at || retryDeadline == old(retryDeadline))
    {
      if at > retryDeadline {
        retryDeadline := at;
      }
    }

    /** GetJSON up to the first attempt; `cached` is a retry time found in the cache. */
    method Begin(id: int, at: int, cached: Option<int>)
      requires at >= clock && id !in calls
      modifies this`clock, this`calls, this`retryDeadline
      ensures View() == Apply(old(View()), Action.Begin(id, at, cached))
      ensures clock == at && calls == old(calls)[id := Call(if cached.Some? then Done else Waiting, 0, 0)]
      ensures retryDeadline == if cached.Some? && cached.value > old(retryDeadline) then cached.value else old(retryDeadline)
    {
      clock := at;
      if cached.Some? {
        ExtendRetry(cached.value);
        calls := calls[id := Call(Done, 0, 0)];
      } else {
        calls := calls[id := Call(Waiting, 0, 0)];
      }
    }

    method Enter(id: int, at: int)
      requires at >= clock && id in calls && calls[id].pc.Waiting? && gate
      modifies this`clock, this`calls, this`gate
      ensures View() == Apply(old(View()), Action.Enter(id, at))
      ensures clock == at && !gate && calls == old(calls)[id := old(calls)[id].(pc := AtTop)]
    {
      clock := at;
      gate := false;
      calls := calls[id := calls[id].(pc := AtTop)];
    }

    method ReadTimes(id: int, at: int)
      requires at >= clock && id in calls && calls[id].pc.AtTop?
      modifies this`clock, this`calls
      ensures View() == Apply(old(View()), Action.ReadTimes(id, at))
      ensures clock == at
      ensures calls == old(calls)[id := old(calls)[id].(pc := Read(if retryDeadline > nextStart then retryDeadline else nextStart))]
    {
      clock := at;
      var time := nextStart;
      if retryDeadline > time {
        time := retryDeadline;
      }
      calls := calls[id := calls[id].(pc := Read(time))];
    }

    method StartOrSleep(id: int, at: int) returns (started: bool)
      requires at >= clock && id in calls && calls[id].pc.Read?
      modifies this`clock, this`calls, this`nextStart, this`starts
      ensures View() == Apply(old(View()), Clock(id, at))
      ensures clock == at && (started <==> old(calls)[id].pc.at <= at)
      ensures nextStart == if started then at + interval else old(nextStart)
      ensures starts == if started then old(starts) + [at] else old(starts)
      ensures calls == old(calls)[id := Call(if started then Flying else AtTop, old(calls)[id].attempt,
                                             old(calls)[id].requests + if started then 1 else 0)]
    {
      clock := at;
      started := !(calls[id].pc.at > at);
      if started {
        nextStart := at + interval;
        starts := starts + [at];
        calls := calls[id := calls[id].(pc := Flying, requests := calls[id].requests + 1)];
      } else {
        calls := calls[id := calls[id].(pc := AtTop)];
      }
    }

    method DelayFor(attempt: nat, header: int) returns (delay: int)
      ensures delay == Delay(View(), attempt, header)
      ensures header > 0 ==> delay == header
      ensures header <= 0 ==> delay == Power(attempt) * interval
    {
      delay := header;
      if delay <= 0 {
        var power := Shift(attempt);
        delay := power * interval;
      }
    }

    method Respond(id: int, at: int, transient: bool, header: int)
      requires at >= clock && id in calls && calls[id].pc.Flying?
      modifies this`clock, this`calls, this`gate, this`retryDeadline, this`floor
      ensures View() == Apply(old(View()), Action.Respond(id, at, transient, header))
      ensures clock == at && gate && calls == old(calls)[id := old(calls)[id].(pc := Handling(transient, header))]
      ensures !transient ==> retryDeadline == old(retryDeadline)
      ensures transient && header > 0 ==> retryDeadline == if at + header > old(retryDeadline) then at + header else old(retryDeadline)
      ensures transient && header <= 0 ==> retryDeadline >= at + Power(old(calls)[id].attempt) * interval
    {
      hide Delay;
      clock := at;
      if transient {
        var delay := DelayFor(calls[id].attempt, header);
        ExtendRetry(at + delay);
        floor := Max(floor, at + delay);
      }
      calls := calls[id := calls[id].(pc := Handling(transient, header))];
      gate := true;
    }

    method Fail(id: int, at: int)
      requires at >= clock && id in calls && !calls[id].pc.Done?
      modifies this`clock, this`calls, this`gate
      ensures View() == Apply(old(View()), Action.Fail(id, at))
      ensures clock == at && calls == old(calls)[id := old(calls)[id].(pc := Done)]
      ensures gate <==> old(gate) || old(calls)[id].pc.AtTop? || old(calls)[id].pc.Read? || old(calls)[id].pc.Flying?
    {
      clock := at;
      gate := gate || Holds(calls[id]);
      calls := calls[id := calls[id].(pc := Done)];
    }

    method Handle(id: int, at: int, stored: bool) returns (again: bool)
      requires at >= clock && id in calls && calls[id].pc.Handling?
      modifies this`clock, this`calls, this`retryDeadline
      ensures View() == Apply(old(View()), Action.Handle(id, at, stored))
      ensures again <==> old(calls)[id].pc.transient && stored && old(calls)[id].attempt < maxRetries
      ensures clock == at
      ensures calls == old(calls)[id := Call(if again then Waiting else Done, old(calls)[id].attempt + if again then 1 else 0,
                                             old(calls)[id].requests)]
      ensures !old(calls)[id].pc.transient ==> retryDeadline == old(retryDeadline)
      ensures old(calls)[id].pc.transient && old(calls)[id].pc.header > 0 ==>
                retryDeadline == if at + old(calls)[id].pc.header > old(retryDeadline) then at + old(calls)[id].pc.header
                                 else old(retryDeadline)
    {
      hide Delay;
      clock := at;
      again := false;
      var c := calls[id];
      if c.pc.transient {
        var delay := DelayFor(c.attempt, c.pc.header);
        ExtendRetry(at + delay);
        again := stored && c.attempt < maxRetries;
      }
      calls := calls[id := if again then c.(pc := Waiting, attempt := c.attempt + 1) else c.(pc := Done)];
    }
  }

}
