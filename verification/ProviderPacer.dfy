/** providerPacer (internal/enrich/pacer.go): waiters queue up behind the last grant, and a
    timer hands out one grant at a time. Every action carries the clock reading at which its
    critical section runs; timers may fire late, never early. */
module ProviderPacer {
  import opened Common

  datatype Grant = Grant(id: nat, at: int)

  /** `timers` holds the due time of every timer armed and not yet fired; waiters are numbered
      by arrival. */
  datatype State = State(interval: int, last: Option<int>, queue: seq<nat>, timers: multiset<int>, now: int, arrivals: nat,
                         grants: seq<Grant>)

  datatype Action =
    | Arrive(at: int)
    | Fire(due: int, at: int)
    | Cancel(id: nat, at: int)

  predicate Enabled(s: State, a: Action) {
    a.at >= s.now && (a.Fire? ==> a.due in s.timers && a.at >= a.due)
  }

  /** The guard of Wait: a first caller passes even with no interval elapsed. */
  predicate Passes(s: State, at: int) {
    s.last.None? || (at - s.last.value >= s.interval && s.queue == [])
  }

  function Granted(s: State, id: nat, at: int): State {
    s.(last := Some(at), grants := s.grants + [Grant(id, at)])
  }

  function Without(queue: seq<nat>, id: nat): seq<nat> {
    if queue == [] then []
    else if queue[0] == id then queue[1..]
    else [queue[0]] + Without(queue[1..], id)
  }

  function Arrived(s: State, at: int): State {
    var n := s.(now := at, arrivals := s.arrivals + 1);
    if Passes(s, at) then Granted(n, s.arrivals, at)
    else
      n.(queue := s.queue + [s.arrivals],
         timers := if s.queue == [] then s.timers + multiset{Max(at, s.last.value + s.interval)} else s.timers)
  }

  /** advance. */
  function Fired(s: State, due: int, at: int): State {
    var left := s.timers - multiset{due};
    if |s.queue| == 0 then s.(now := at, timers := left)
    else
      s.(now := at, last := Some(at), grants := s.grants + [Grant(s.queue[0], at)], queue := s.queue[1..],
         timers := if |s.queue| == 1 then left else left + multiset{at + s.interval})
  }

  function Apply(s: State, a: Action): State {
    match a
    case Arrive(at) => Arrived(s, at)
    case Fire(due, at) => Fired(s, due, at)
    case Cancel(id, at) => s.(now := at, queue := Without(s.queue, id))
  }

  predicate Initial(s: State) {
    s.interval > 0 && s.last.None? && s.queue == [] && s.timers == multiset{} && s.grants == [] && s.arrivals == 0
  }

  // ---------------------------------------------------------------------
  // Every run, cancellations included

  /** Grants follow arrival order: the granted ids ascend, so do the queued ones, and every
      queued id is later than every granted one. */
  predicate InOrder(s: State) {
    && (forall i, j :: 0 <= i < j < |s.grants| ==> s.grants[i].id < s.grants[j].id)
    && Ascending(s.queue)
    && (forall i, k :: 0 <= i < |s.grants| && 0 <= k < |s.queue| ==> s.grants[i].id < s.queue[k])
    && (forall i :: 0 <= i < |s.grants| ==> s.grants[i].id < s.arrivals)
    && (forall k :: 0 <= k < |s.queue| ==> s.queue[k] < s.arrivals)
  }

  /** Somebody will be woken: a waiting queue has a timer. */
  predicate Attended(s: State) {
    && (s.queue != [] ==> s.timers != multiset{})
    && (s.last.None? ==> s.queue == [] && s.grants == [])
    && (s.last.Some? ==> s.grants != [] && s.grants[|s.grants| - 1].at == s.last.value && s.last.value <= s.now)
    && s.interval > 0
  }

  predicate Inv(s: State) {
    InOrder(s) && Attended(s)
  }

  lemma {:induction false} WithoutMember(queue: seq<nat>, id: nat, x: nat)
    ensures x in Without(queue, id) ==> x in queue
    ensures x in queue && x != id ==> x in Without(queue, id)
  {
    if queue != [] && queue[0] != id {
      WithoutMember(queue[1..], id, x);
    }
  }

  lemma {:induction false} WithoutAscends(queue: seq<nat>, id: nat)
    requires Ascending(queue)
    ensures Ascending(Without(queue, id))
  {
    if queue != [] && queue[0] != id {
      var tail := queue[1..];
      var rest := Without(tail, id);
      WithoutAscends(tail, id);
      forall k | 0 <= k < |rest|
        ensures queue[0] < rest[k]
      {
        WithoutMember(tail, id, rest[k]);
      }
      assert Without(queue, id) == [queue[0]] + rest;
    }
  }

  lemma {:induction false} OrderCancel(s: State, id: nat, at: int)
    requires InOrder(s)
    ensures InOrder(Apply(s, Cancel(id, at)))
  {
    var q := Without(s.queue, id);
    WithoutAscends(s.queue, id);
    forall k | 0 <= k < |q|
      ensures exists j :: 0 <= j < |s.queue| && s.queue[j] == q[k]
    {
      WithoutMember(s.queue, id, q[k]);
    }
  }

  lemma {:induction false} OrderArrive(s: State, at: int)
    requires Inv(s)
    ensures InOrder(Arrived(s, at))
  {
    hide Ascending;
    QueueGrows(s.queue, s.arrivals);
  }

  lemma {:induction false} OrderFire(s: State, due: int, at: int)
    requires InOrder(s)
    ensures InOrder(Fired(s, due, at))
  {
    hide Ascending;
    QueueShrinks(s.queue);
  }

  lemma {:induction false} OrderStep(s: State, a: Action)
    requires Inv(s) && Enabled(s, a)
    ensures InOrder(Apply(s, a))
  {
    if a.Cancel? {
      OrderCancel(s, a.id, a.at);
      hide InOrder;
    } else if a.Arrive? {
      OrderArrive(s, a.at);
      hide InOrder, Arrived;
    } else {
      OrderFire(s, a.due, a.at);
      hide InOrder, Fired;
    }
  }

  lemma {:induction false} QueueGrows(queue: seq<nat>, id: nat)
    requires Ascending(queue) && forall k :: 0 <= k < |queue| ==> queue[k] < id
    ensures Ascending(queue + [id])
  {
  }

  lemma {:induction false} QueueShrinks(queue: seq<nat>)
    requires Ascending(queue)
    ensures queue != [] ==> Ascending(queue[1..]) && forall k :: 0 <= k < |queue| - 1 ==> queue[0] < queue[1..][k]
  {
  }

  lemma {:induction false} SomeTimer(timers: multiset<int>)
    ensures timers == multiset{} || exists due :: due in timers
  {
    if !exists due :: due in timers {
      assert timers == multiset{};
    }
  }

  lemma {:induction false} AttendedFire(s: State, due: int, at: int)
    requires Attended(s) && at >= s.now
    ensures Attended(Apply(s, Fire(due, at)))
  {
    assert at + s.interval in (s.timers - multiset{due}) + multiset{at + s.interval};
  }

  lemma {:induction false} AttendedArrive(s: State, at: int)
    requires Attended(s) && at >= s.now
    ensures Attended(Apply(s, Arrive(at)))
  {
    var due := if s.last.Some? then Max(at, s.last.value + s.interval) else 0;
    assert due in s.timers + multiset{due};
  }

  lemma {:induction false} AttendedStep(s: State, a: Action)
    requires Inv(s) && Enabled(s, a)
    ensures Attended(Apply(s, a))
  {
    hide InOrder;
    if a.Cancel? {
      assert Without(s.queue, a.id) != [] ==> s.queue != [];
    } else if a.Arrive? {
      AttendedArrive(s, a.at);
    } else {
      AttendedFire(s, a.due, a.at);
    }
  }

  ghost predicate Run(ss: seq<State>, acts: seq<Action>) {
    && |ss| == |acts| + 1 && Initial(ss[0])
    && (forall i :: 0 <= i < |acts| ==> Enabled(ss[i], acts[i]) && ss[i + 1] == Apply(ss[i], acts[i]))
  }

  lemma {:induction false} InvAlong(ss: seq<State>, acts: seq<Action>, k: nat)
    requires Run(ss, acts) && k <= |acts|
    ensures Inv(ss[k])
  {
    if k > 0 {
      InvAlong(ss, acts, k - 1);
      hide InOrder, Attended, Apply, Enabled;
      OrderStep(ss[k - 1], acts[k - 1]);
      AttendedStep(ss[k - 1], acts[k - 1]);
    }
  }

  /** In every run, grants go out in arrival order, a waiting queue always has a timer, and
      firing any due timer grants the head of the queue. */
  lemma {:induction false} FirstComeFirstServed(ss: seq<State>, acts: seq<Action>, k: nat)
    requires Run(ss, acts) && k <= |acts|
    ensures forall i, j :: 0 <= i < j < |ss[k].grants| ==> ss[k].grants[i].id < ss[k].grants[j].id
    ensures ss[k].queue != [] ==> ss[k].timers != multiset{}
    ensures forall due, at :: Enabled(ss[k], Fire(due, at)) && ss[k].queue != [] ==>
              Apply(ss[k], Fire(due, at)).grants == ss[k].grants + [Grant(ss[k].queue[0], at)]
  {
    InvAlong(ss, acts, k);
  }

  // ---------------------------------------------------------------------
  // Spacing

  predicate Spaced(s: State) {
    forall i :: 0 < i < |s.grants| ==> s.grants[i].at - s.grants[i - 1].at >= s.interval
  }

  /** A waiter queues up behind nobody while some timer is still out. */
  predicate StaleEnqueue(s: State, a: Action) {
    a.Arrive? && !Passes(s, a.at) && s.queue == [] && s.timers != multiset{}
  }

  /** At most one timer, and a queued waiter's timer keeps its distance from the last grant. */
  predicate OneTimer(s: State) {
    && |s.timers| <= 1
    && (s.queue != [] && s.last.Some? ==> forall due :: due in s.timers ==> due >= s.last.value + s.interval)
    && Spaced(s)
  }

  lemma {:induction false} OneTimerStep(s: State, a: Action)
    requires Inv(s) && OneTimer(s) && Enabled(s, a) && !StaleEnqueue(s, a)
    ensures OneTimer(Apply(s, a))
  {
    hide InOrder;
    if a.Cancel? {
      assert Without(s.queue, a.id) != [] ==> s.queue != [];
    } else if a.Fire? {
      assert |s.timers - multiset{a.due}| == |s.timers| - 1;
      assert s.timers - multiset{a.due} == multiset{};
    }
  }

  /** Grants are at least `interval` apart in every run in which nobody queues up behind nobody
      while a timer is out. */
  lemma {:induction false} GrantsAreSpaced(ss: seq<State>, acts: seq<Action>, k: nat)
    requires Run(ss, acts) && k <= |acts|
    requires forall i :: 0 <= i < k ==> !StaleEnqueue(ss[i], acts[i])
    ensures OneTimer(ss[k])
  {
    if k > 0 {
      GrantsAreSpaced(ss, acts, k - 1);
      InvAlong(ss, acts, k - 1);
      hide Inv, OneTimer, Apply, Enabled, StaleEnqueue;
      OneTimerStep(ss[k - 1], acts[k - 1]);
    }
  }

  predicate EmptyingCancel(s: State, a: Action) {
    a.Cancel? && s.queue != [] && Without(s.queue, a.id) == []
  }

  /** In runs where no cancellation empties the queue, there is exactly one timer while somebody
      waits and none otherwise, and grants are at least `interval` apart. */
  lemma {:induction false} OneTimerWhileWaiting(ss: seq<State>, acts: seq<Action>, k: nat)
    requires Run(ss, acts) && k <= |acts|
    requires forall i :: 0 <= i < k ==> !EmptyingCancel(ss[i], acts[i])
    ensures ss[k].queue == [] <==> ss[k].timers == multiset{}
    ensures |ss[k].timers| == (if ss[k].queue == [] then 0 else 1)
    ensures Spaced(ss[k])
    ensures OneTimer(ss[k])
  {
    hide Inv, Apply, Enabled, EmptyingCancel;
    if k > 0 {
      OneTimerWhileWaiting(ss, acts, k - 1);
      InvAlong(ss, acts, k - 1);
      RunStep(ss, acts, k - 1);
      hide Spaced, OneTimer;
      OneTimerKept(ss[k - 1], acts[k - 1]);
    }
  }

  lemma {:induction false} RunStep(ss: seq<State>, acts: seq<Action>, i: nat)
    requires Run(ss, acts) && i < |acts|
    ensures Enabled(ss[i], acts[i]) && ss[i + 1] == Apply(ss[i], acts[i])
  {
    hide Enabled, Apply, Initial;
  }

  lemma {:induction false} OneTimerKept(s: State, a: Action)
    requires Inv(s) && Enabled(s, a) && !EmptyingCancel(s, a) && OneTimer(s)
    requires (s.queue == [] <==> s.timers == multiset{}) && |s.timers| == (if s.queue == [] then 0 else 1)
    ensures var n := Apply(s, a);
            (n.queue == [] <==> n.timers == multiset{}) && |n.timers| == (if n.queue == [] then 0 else 1) && Spaced(n) && OneTimer(n)
  {
    OneTimerStep(s, a);
    hide Inv, Spaced;
    if a.Fire? {
      assert |s.timers - multiset{a.due}| == |s.timers| - 1;
    }
  }

  /** The hypothesis is exact: right after any stale enqueue, in any run, a continuation exists
      that gives two grants at the same instant: the first timer serves the waiter, another
      one arrives, and the second timer serves it at once. */
  lemma {:induction false} StaleEnqueueBreaksSpacing(s: State, a: Action) returns (rest: seq<Action>, bad: State)
    requires Inv(s) && Enabled(s, a) && StaleEnqueue(s, a)
    ensures Leads(Apply(s, a), rest, bad) && |rest| == 3
    ensures !Spaced(bad)
  {
    hide Apply, Inv, StaleEnqueue, Spaced, Passes, Enabled;
    var first, second := StaleTimers(s, a);
    var at := Max(Max(first, second), a.at);
    rest := [Fire(first, at), Arrive(at), Fire(second, at)];
    var s1 := Apply(s, a);
    var s2 := Apply(s1, Fire(first, at));
    var s3 := Apply(s2, Arrive(at));
    bad := Apply(s3, Fire(second, at));
    ServedAt(s1, first, second, at);
    ArrivesLate(s2, at, second);
    ServedAgain(s3, second, at);
    LeadsThree(s1, rest, bad);
  }

  lemma {:induction false} StaleTimers(s: State, a: Action) returns (first: int, second: int)
    requires Inv(s) && StaleEnqueue(s, a)
    ensures var s1 := Apply(s, a);
            |s1.queue| == 1 && first in s1.timers && second in s1.timers - multiset{first} && s1.now == a.at && s1.interval > 0
  {
    SomeTimer(s.timers);
    first :| first in s.timers;
    second := Max(a.at, s.last.value + s.interval);
    assert (s.timers + multiset{second}) - multiset{first} == (s.timers - multiset{first}) + multiset{second};
  }

  lemma {:induction false} ServedAt(s: State, first: int, second: int, at: int)
    requires |s.queue| == 1 && first in s.timers && second in s.timers - multiset{first} && at >= first && at >= s.now
    ensures Enabled(s, Fire(first, at))
    ensures var n := Apply(s, Fire(first, at));
            && n.last == Some(at) && n.queue == [] && second in n.timers && n.now == at && n.interval == s.interval
            && n.grants == s.grants + [Grant(s.queue[0], at)]
  {
  }

  lemma {:induction false} ArrivesLate(s: State, at: int, second: int)
    requires s.last == Some(at) && s.queue == [] && s.interval > 0 && second in s.timers && s.now == at
    ensures Enabled(s, Arrive(at))
    ensures var n := Apply(s, Arrive(at));
            n.queue == [s.arrivals] && second in n.timers && n.now == at && n.interval == s.interval && n.grants == s.grants
  {
    assert second in s.timers + multiset{at + s.interval};
  }

  lemma {:induction false} ServedAgain(s: State, second: int, at: int)
    requires |s.queue| == 1 && second in s.timers && at >= second && s.now == at && s.interval > 0
    requires s.grants != [] && s.grants[|s.grants| - 1].at == at
    ensures Enabled(s, Fire(second, at)) && !Spaced(Apply(s, Fire(second, at)))
  {
    var n := Apply(s, Fire(second, at));
    assert n.grants[|s.grants|].at == at && n.grants[|s.grants| - 1].at == at;
  }

  ghost predicate Leads(s: State, acts: seq<Action>, end: State)
    decreases |acts|
  {
    if acts == [] then s == end else Enabled(s, acts[0]) && Leads(Apply(s, acts[0]), acts[1..], end)
  }

  lemma {:induction false} LeadsThree(s: State, acts: seq<Action>, end: State)
    requires |acts| == 3 && Enabled(s, acts[0]) && Enabled(Apply(s, acts[0]), acts[1])
    requires Enabled(Apply(Apply(s, acts[0]), acts[1]), acts[2])
    requires end == Apply(Apply(Apply(s, acts[0]), acts[1]), acts[2])
    ensures Leads(s, acts, end)
  {
    hide Apply, Enabled;
    var one, two := acts[1..], acts[1..][1..];
    assert one[0] == acts[1] && two[0] == acts[2] && two[1..] == [];
    assert Leads(end, two[1..], end);
    assert Leads(Apply(Apply(s, acts[0]), acts[1]), two, end);
  }

  /** Such a run exists: a first caller passes, a second queues up and gives up, a third queues
      up while the second's timer is still out. */
  lemma {:induction false} StaleEnqueueArises(s: State)
    requires Initial(s)
    ensures var s1 := Apply(s, Arrive(s.now)); var s2 := Apply(s1, Arrive(s.now)); var s3 := Apply(s2, Cancel(1, s.now));
            && Enabled(s, Arrive(s.now)) && Enabled(s1, Arrive(s.now)) && Enabled(s2, Cancel(1, s.now))
            && StaleEnqueue(s3, Arrive(s.now))
  {
    var s1 := Apply(s, Arrive(s.now));
    var s2 := Apply(s1, Arrive(s.now));
    assert s2.queue == [1];
    assert s.now + s.interval in s2.timers;
  }

  /** Nobody starves: whatever cancellations came before, the waiter at position k is granted by
      the timers' next k + 1 firings. */
  lemma {:induction false} WaiterIsServed(s: State, k: nat) returns (acts: seq<Action>, n: State)
    requires Inv(s) && k < |s.queue|
    ensures Leads(s, acts, n) && |acts| == k + 1 && forall i :: 0 <= i < |acts| ==> acts[i].Fire?
    ensures n.grants != [] && n.grants[|n.grants| - 1].id == s.queue[k]
    decreases k
  {
    hide Apply, Inv, Enabled;
    var a := FireHead(s);
    var next := Apply(s, a);
    if k == 0 {
      acts, n := [a], next;
      assert acts[1..] == [] && Leads(next, [], n);
    } else {
      var rest;
      rest, n := WaiterIsServed(next, k - 1);
      acts := [a] + rest;
      assert acts[1..] == rest;
    }
  }

  lemma {:induction false} FireHead(s: State) returns (a: Action)
    requires Inv(s) && s.queue != []
    ensures a.Fire? && Enabled(s, a) && Inv(Apply(s, a))
    ensures Apply(s, a).queue == s.queue[1..] && Apply(s, a).grants == s.grants + [Grant(s.queue[0], a.at)]
  {
    SomeTimer(s.timers);
    var due: int :| due in s.timers;
    a := Fire(due, Max(due, s.now));
    OrderStep(s, a);
    AttendedStep(s, a);
    hide InOrder, Attended;
  }

  /** Dropping the first match: while the first i ids differ, they stay. */
  lemma {:induction false} WithoutAt(queue: seq<nat>, id: nat, i: nat)
    requires i <= |queue| && forall k :: 0 <= k < i ==> queue[k] != id
    ensures i == |queue| ==> Without(queue, id) == queue
    ensures i < |queue| && queue[i] == id ==> Without(queue, id) == queue[..i] + queue[i + 1..]
  {
    if i > 0 {
      WithoutAt(queue[1..], id, i - 1);
      assert queue == [queue[0]] + queue[1..];
      if i < |queue| {
        assert queue[..i] == [queue[0]] + queue[1..][..i - 1];
        assert queue[1..][i..] == queue[i + 1..];
      }
    }
  }

  // ---------------------------------------------------------------------
  // The pacer itself

  /** A timer firing, case by case. */
  lemma {:induction false} Fires(s: State, due: int, at: int)
    ensures s.queue == [] ==> Fired(s, due, at) == s.(now := at, timers := s.timers - multiset{due})
    ensures s.queue != [] ==>
              Fired(s, due, at) ==
              State(s.interval, Some(at), s.queue[1..],
                    if |s.queue| == 1 then s.timers - multiset{due} else s.timers - multiset{due} + multiset{at + s.interval},
                    at, s.arrivals, s.grants + [Grant(s.queue[0], at)])
  {
  }

  /** Arriving, case by case. */
  lemma {:induction false} Arrives(s: State, at: int)
    ensures Passes(s, at) ==>
              Apply(s, Arrive(at)) == State(s.interval, Some(at), s.queue, s.timers, at, s.arrivals + 1, s.grants + [Grant(s.arrivals, at)])
    ensures !Passes(s, at) ==> s.last.Some?
    ensures !Passes(s, at) ==>
              Apply(s, Arrive(at)) ==
              State(s.interval, s.last, s.queue + [s.arrivals],
                    if s.queue == [] then s.timers + multiset{Max(at, s.last.value + s.interval)} else s.timers,
                    at, s.arrivals + 1, s.grants)
  {
  }

  /** providerPacer; `grants` records who was let through and when. */
  class Pacer {
    const interval: int
    var last: Option<int>
    var queue: seq<nat>
    var timers: multiset<int>
    var clock: int
    var waitCount: nat
    ghost var grants: seq<Grant>

    ghost function View(): State
      reads this
    {
      State(interval, last, queue, timers, clock, waitCount, grants)
    }

    constructor (spacing: int, start: int)
      requires spacing > 0
      ensures Initial(View()) && interval == spacing && clock == start
    {
      interval := spacing;
      last, queue, timers, clock, waitCount, grants := None, [], multiset{}, start, 0, [];
    }

    /** Wait up to its blocking receive: the caller passes, or is queued as `id`. */
    method Wait(at: int) returns (id: nat, passed: bool)
      requires at >= clock
      modifies this
      ensures View() == Apply(old(View()), Arrive(at))
      ensures id == old(waitCount) && waitCount == id + 1 && clock == at
      ensures passed <==> old(last == None || (at - last.value >= interval && queue == []))
      ensures passed ==> last == Some(at) && queue == old(queue) && timers == old(timers) && grants == old(grants) + [Grant(id, at)]
      ensures !passed ==> last == old(last) && queue == old(queue) + [id] && grants == old(grants)
      ensures !passed ==> timers == if old(queue) != [] then old(timers)
                                    else old(timers) + multiset{if last.value + interval < at then at else last.value + interval}
    {
      id := waitCount;
      passed := last.None? || (at - last.value >= interval && |queue| == 0);
      assert passed <==> Passes(View(), at);
      Arrives(View(), at);
      hide Apply, Passes, Enabled;
      waitCount := waitCount + 1;
      clock := at;
      if passed {
        last := Some(at);
        grants := grants + [Grant(id, at)];
      } else {
        Enqueue(id, at);
      }
    }

    /** The first in the queue arms the timer. */
    method Enqueue(id: nat, at: int)
      requires last.Some?
      modifies this`queue, this`timers
      ensures queue == old(queue) + [id]
      ensures timers == if old(queue) == [] then old(timers) + multiset{Max(at, last.value + interval)} else old(timers)
    {
      queue := queue + [id];
      if |queue| == 1 {
        var delay := last.value + interval - at;
        if delay < 0 {
          delay := 0;
        }
        timers := timers + multiset{at + delay};
      }
    }

    /** The ctx.Done branch of Wait: drop the waiter if it is still queued. */
    method CancelWait(id: nat, at: int)
      requires at >= clock
      modifies this`queue, this`clock
      ensures View() == Apply(old(View()), Cancel(id, at))
      ensures clock == at && (id !in old(queue) ==> queue == old(queue))
      ensures id in old(queue) ==>
                exists i :: 0 <= i < |old(queue)| && old(queue)[i] == id && queue == old(queue)[..i] + old(queue)[i + 1..]
    {
      hide Without, Enabled;
      clock := at;
      var i := 0;
      while i < |queue|
        invariant 0 <= i <= |queue| && queue == old(queue) && clock == at
        invariant forall k :: 0 <= k < i ==> queue[k] != id
      {
        WithoutAt(queue, id, i);
        if queue[i] == id {
          queue := queue[..i] + queue[i + 1..];
          return;
        }
        i := i + 1;
      }
      WithoutAt(queue, id, i);
    }

    /** advance, run by the timer that was due at `due`. */
    method Advance(due: int, at: int)
      requires due in timers && at >= clock && at >= due
      modifies this`clock, this`timers, this`queue, this`last, this`grants
      ensures clock == at && last == Fired(old(View()), due, at).last && queue == Fired(old(View()), due, at).queue
      ensures timers == Fired(old(View()), due, at).timers && grants == Fired(old(View()), due, at).grants
      ensures old(queue) == [] ==> queue == [] && last == old(last) && timers == old(timers) - multiset{due} && grants == old(grants)
      ensures old(queue) != [] ==>
                && queue == old(queue)[1..] && last == Some(at) && grants == old(grants) + [Grant(old(queue)[0], at)]
                && timers == if queue == [] then old(timers) - multiset{due} else old(timers) - multiset{due} + multiset{at + interval}
    {
      Fires(View(), due, at);
      hide Fired;
      clock := at;
      timers := timers - multiset{due};
      if |queue| > 0 {
        WakeHead(at);
      }
    }

    method WakeHead(at: int)
      requires |queue| > 0
      modifies this`timers, this`queue, this`last, this`grants
      ensures queue == old(queue)[1..] && last == Some(at) && grants == old(grants) + [Grant(old(queue)[0], at)]
      ensures timers == if old(|queue|) == 1 then old(timers) else old(timers) + multiset{at + interval}
    {
      var wake := queue[0];
      queue := queue[1..];
      last := Some(at);
      grants := grants + [Grant(wake, at)];
      if |queue| > 0 {
        timers := timers + multiset{at + interval};
      }
    }
  }
}
