/** The event bus (internal/events/bus.go) over its durable log (internal/store/profile_data.go):
    publishers append and then fan out; a subscriber attaches, replays the log, and then
    drops live events it has already replayed. All interleavings. */
module EventBus {
  import opened Common

  const PRUNE_KEEP := 10000
  const CHANNEL_CAPACITY := 64

  /** `profile` None is an instance-wide event. */
  datatype Event = Event(seqNo: int, profile: Option<int>)

  /** What the subscriber's goroutine is doing. `held` is an event taken from the live
      channel and waiting to be handed to the consumer. */
  datatype Phase = Attached | Replaying(rows: seq<Event>) | Live(held: Option<Event>) | Stopped

  /** `channel` is the bounded live buffer, `delivered` everything handed to the consumer.
      `taken` is the sequence number up to which the live channel has been read (initially
      the fan-out position when the subscriber attached), `readTo` the log position at
      replay; both only describe the run. */
  datatype Subscriber = Subscriber(profile: int, since: int, channel: seq<Event>, phase: Phase, lastSent: int,
                                   delivered: seq<Event>, taken: int, readTo: nat, attached: bool)

  /** `history` is every event ever appended, numbered from 1; the rows up to `pruned` are
      deleted; `pending` events are appended but not yet fanned out. */
  datatype Bus = Bus(history: seq<Event>, pruned: nat, pending: seq<Event>, subs: map<int, Subscriber>)

  datatype Action =
    | Append(scope: Option<int>)
    | FanOut(index: nat)
    | Prune
    | Subscribe(id: int, profile: int, since: int)
    | ReadReplay(id: int)
    | ReplayError(id: int)
    | SendReplay(id: int)
    | GoLive(id: int)
    | Receive(id: int)
    | Deliver(id: int)
    | Cancel(id: int)
    | Stop(id: int)

  predicate Visible(e: Event, profile: int) {
    e.profile.None? || e.profile.value == profile
  }

  /** The events numbered lo+1..hi that a profile may see, in order. */
  function Seen(history: seq<Event>, profile: int, lo: int, hi: nat): seq<Event>
    requires hi <= |history|
  {
    if hi == 0 then []
    else Seen(history, profile, lo, hi - 1)
         + if hi > lo && Visible(history[hi - 1], profile) then [history[hi - 1]] else []
  }

  /** EventsSince: the first `PRUNE_KEEP` retained rows after `since`. */
  function EventsSince(b: Bus, profile: int, since: int): seq<Event> {
    var rows := Seen(b.history, profile, Max(since, b.pruned), |b.history|);
    rows[..Min(PRUNE_KEEP, |rows|)]
  }

  predicate Enabled(b: Bus, a: Action) {
    match a
    case Append(_) => true
    case FanOut(i) => i < |b.pending|
    case Prune => true
    case Subscribe(id, _, _) => id !in b.subs
    case ReadReplay(id) => id in b.subs && b.subs[id].phase.Attached?
    case ReplayError(id) => id in b.subs && b.subs[id].phase.Attached?
    case SendReplay(id) => id in b.subs && b.subs[id].phase.Replaying? && b.subs[id].phase.rows != []
    case GoLive(id) => id in b.subs && b.subs[id].phase.Replaying? && b.subs[id].phase.rows == []
    case Receive(id) => id in b.subs && b.subs[id].phase == Live(None) && b.subs[id].channel != []
    case Deliver(id) => id in b.subs && b.subs[id].phase.Live? && b.subs[id].phase.held.Some?
    case Cancel(id) => id in b.subs
    case Stop(id) => id in b.subs && !b.subs[id].attached
  }

  /** One subscriber's share of a fan-out: never blocks, drops when the channel is full. */
  function Offer(s: Subscriber, e: Event): Subscriber {
    if s.attached && Visible(e, s.profile) && |s.channel| < CHANNEL_CAPACITY then s.(channel := s.channel + [e]) else s
  }

  function Hand(s: Subscriber, e: Event): Subscriber {
    s.(delivered := s.delivered + [e], lastSent := e.seqNo)
  }

  function Without<T>(s: seq<T>, i: nat): seq<T>
    requires i < |s|
  {
    s[..i] + s[i + 1..]
  }

  /** The subscriber after its own step. */
  function Advance(b: Bus, s: Subscriber, a: Action): Subscriber
    requires a.ReadReplay? || a.ReplayError? || a.SendReplay? || a.GoLive? || a.Receive? || a.Deliver? || a.Cancel? || a.Stop?
    requires a.id in b.subs && b.subs[a.id] == s && Enabled(b, a)
  {
    match a
    case ReadReplay(_) => s.(phase := Replaying(EventsSince(b, s.profile, s.since)), readTo := |b.history|)
    case ReplayError(_) => s.(phase := Replaying([]), readTo := |b.history|)
    case SendReplay(_) => Hand(s, s.phase.rows[0]).(phase := Replaying(s.phase.rows[1..]))
    case GoLive(_) => s.(phase := Live(None))
    case Receive(_) =>
      var e := s.channel[0];
      s.(channel := s.channel[1..], taken := Max(s.taken, e.seqNo),
         phase := Live(if e.seqNo <= s.lastSent then None else Some(e)))
    case Deliver(_) => Hand(s, s.phase.held.value).(phase := Live(None))
    case Cancel(_) => s.(attached := false)
    case Stop(_) => s.(phase := Stopped)
  }

  function Apply(b: Bus, a: Action): Bus
    requires Enabled(b, a)
  {
    match a
    case Append(scope) =>
      var e := Event(|b.history| + 1, scope);
      b.(history := b.history + [e], pending := b.pending + [e])
    case FanOut(i) =>
      b.(pending := Without(b.pending, i), subs := map id | id in b.subs :: Offer(b.subs[id], b.pending[i]))
    case Prune => b.(pruned := Max(b.pruned, |b.history| - PRUNE_KEEP))
    case Subscribe(id, profile, since) =>
      b.(subs := b.subs[id := Subscriber(profile, since, [], Attached, since, [], |b.history| - |b.pending|, 0, true)])
    case _ => b.(subs := b.subs[a.id := Advance(b, b.subs[a.id], a)])
  }

  const START := Bus([], 0, [], map[])

  // ---------------------------------------------------------------------
  // Every interleaving: own events only, strictly increasing, no duplicates

  ghost predicate Increasing(es: seq<Event>, above: int) {
    (forall i :: 0 <= i < |es| ==> es[i].seqNo > above) &&
    (forall i, j :: 0 <= i < j < |es| ==> es[i].seqNo < es[j].seqNo)
  }

  ghost predicate AllVisible(es: seq<Event>, profile: int) {
    forall i :: 0 <= i < |es| ==> Visible(es[i], profile)
  }

  ghost predicate Orderly(s: Subscriber) {
    && Increasing(s.delivered, s.since) && AllVisible(s.delivered, s.profile) && AllVisible(s.channel, s.profile)
    && s.lastSent == (if s.delivered == [] then s.since else s.delivered[|s.delivered| - 1].seqNo)
    && (s.phase.Attached? ==> s.delivered == [])
    && (s.phase.Replaying? ==> Increasing(s.phase.rows, s.lastSent) && AllVisible(s.phase.rows, s.profile))
    && (s.phase.Live? && s.phase.held.Some? ==>
          s.phase.held.value.seqNo > s.lastSent && Visible(s.phase.held.value, s.profile))
  }

  ghost predicate Numbered(b: Bus) {
    && (forall i :: 0 <= i < |b.history| ==> b.history[i].seqNo == i + 1)
    && (forall e :: e in b.pending ==> e in b.history) && |b.pending| <= |b.history|
  }

  ghost predicate Safe(b: Bus) {
    Numbered(b) && forall id :: id in b.subs ==> Orderly(b.subs[id])
  }

  lemma {:induction false} SeenIsOrdered(history: seq<Event>, profile: int, lo: int, hi: nat)
    requires hi <= |history| && forall i :: 0 <= i < |history| ==> history[i].seqNo == i + 1
    ensures var s := Seen(history, profile, lo, hi);
            Increasing(s, lo) && AllVisible(s, profile) && forall i :: 0 <= i < |s| ==> s[i].seqNo <= hi
  {
    if hi > 0 {
      SeenIsOrdered(history, profile, lo, hi - 1);
    }
  }

  /** Handing over an event that is newer than the last one keeps the subscriber orderly. */
  lemma {:induction false} HandSafe(s: Subscriber, e: Event, next: Phase)
    requires Orderly(s) && e.seqNo > s.lastSent && Visible(e, s.profile)
    requires next == Live(None) || (next.Replaying? && Increasing(next.rows, e.seqNo) && AllVisible(next.rows, s.profile))
    ensures Orderly(Hand(s, e).(phase := next))
  {
    hide Visible;
  }

  lemma {:induction false} ReceiveSafe(s: Subscriber, taken: int)
    requires Orderly(s) && s.channel != [] && s.phase == Live(None)
    ensures var e := s.channel[0];
            Orderly(s.(channel := s.channel[1..], taken := taken, phase := Live(if e.seqNo <= s.lastSent then None else Some(e))))
  {
    hide Increasing, Visible;
  }

  lemma {:induction false} AdvanceSafe(b: Bus, a: Action)
    requires Safe(b) && Enabled(b, a) && !a.Append? && !a.FanOut? && !a.Prune? && !a.Subscribe?
    ensures Orderly(Advance(b, b.subs[a.id], a))
  {
    var s := b.subs[a.id];
    assert Orderly(s);
    match a
    case ReadReplay(_) =>
      SeenIsOrdered(b.history, s.profile, Max(s.since, b.pruned), |b.history|);
      hide Seen, Visible;
    case SendReplay(_) =>
      var rows := s.phase.rows;
      assert Increasing(rows[1..], rows[0].seqNo) && AllVisible(rows[1..], s.profile);
      HandSafe(s, rows[0], Replaying(rows[1..]));
      hide Orderly;
    case Deliver(_) =>
      HandSafe(s, s.phase.held.value, Live(None));
      hide Orderly;
    case Receive(_) =>
      ReceiveSafe(s, Max(s.taken, s.channel[0].seqNo));
      hide Orderly;
    case _ =>
      hide Increasing, AllVisible;
  }

  lemma {:induction false} SafeStep(b: Bus, a: Action)
    requires Safe(b) && Enabled(b, a)
    ensures Safe(Apply(b, a))
  {
    match a
    case Append(_) =>
    case FanOut(i) =>
      forall id | id in b.subs ensures Orderly(Offer(b.subs[id], b.pending[i])) {}
      assert forall e :: e in Without(b.pending, i) ==> e in b.pending;
    case Prune =>
    case Subscribe(_, _, _) =>
    case _ => AdvanceSafe(b, a);
  }

  ghost predicate Path(b: Bus, acts: seq<Action>, t: Bus)
    decreases |acts|
  {
    if acts == [] then b == t else Enabled(b, acts[0]) && Path(Apply(b, acts[0]), acts[1..], t)
  }

  lemma {:induction false} SafeAlong(b: Bus, acts: seq<Action>, t: Bus)
    requires Safe(b) && Path(b, acts, t)
    ensures Safe(t)
    decreases |acts|
  {
    if acts != [] {
      SafeStep(b, acts[0]);
      SafeAlong(Apply(b, acts[0]), acts[1..], t);
    }
  }

  /** In every interleaving of publishers, replays, cancellations and pruning, a subscriber
      is handed only its own or instance-wide events, all newer than `since`, in strictly
      increasing order and hence without duplicates. */
  lemma DeliveryIsOrderly(acts: seq<Action>, t: Bus, id: int)
    requires Path(START, acts, t) && id in t.subs
    ensures var s := t.subs[id];
            && (forall e :: e in s.delivered ==> (e.profile == None || e.profile == Some(s.profile)) && e.seqNo > s.since)
            && (forall i, j :: 0 <= i < j < |s.delivered| ==> s.delivered[i].seqNo < s.delivered[j].seqNo)
  {
    SafeAlong(START, acts, t);
    assert Orderly(t.subs[id]);
  }

  /** An event overtaken by a later one is gone for good: no continuation delivers it, and a
      reconnect that resumes from the last delivered number does not replay it either. */
  lemma {:induction false} OvertakenIsLost(b: Bus, acts: seq<Action>, t: Bus, id: int, e: Event)
    requires Safe(b) && Path(b, acts, t) && id in b.subs
    requires e.seqNo <= b.subs[id].lastSent && e !in b.subs[id].delivered
    ensures id in t.subs && e !in t.subs[id].delivered && e.seqNo <= t.subs[id].lastSent
    ensures forall r :: r in Seen(t.history, t.subs[id].profile, t.subs[id].lastSent, |t.history|) ==> r != e
    decreases |acts|
  {
    if acts == [] {
      SeenIsOrdered(t.history, t.subs[id].profile, t.subs[id].lastSent, |t.history|);
    } else {
      SafeStep(b, acts[0]);
      var n := Apply(b, acts[0]);
      assert n.subs[id].delivered == b.subs[id].delivered ||
             (exists x :: n.subs[id].delivered == b.subs[id].delivered + [x] && x.seqNo > b.subs[id].lastSent) by {
        if acts[0].SendReplay? && acts[0].id == id {
          assert n.subs[id].delivered == b.subs[id].delivered + [b.subs[id].phase.rows[0]];
        } else if acts[0].Deliver? && acts[0].id == id {
          assert n.subs[id].delivered == b.subs[id].delivered + [b.subs[id].phase.held.value];
        }
      }
      OvertakenIsLost(n, acts[1..], t, id, e);
    }
  }

  // ---------------------------------------------------------------------
  // Exactly once

  /** What exactly-once delivery to `who` takes: publishers fan out in the order they appended;
      its own channel is not full when an event for it is fanned out; and when its own replay
      reads the log, no event it still needs has been pruned and at most `PRUNE_KEEP` of them
      are visible. Nothing is asked of any other subscriber. */
  ghost predicate Hyp(b: Bus, a: Action, who: int) {
    match a
    case FanOut(i) =>
      i == 0 && (who in b.subs && b.subs[who].attached && i < |b.pending| && Visible(b.pending[i], b.subs[who].profile) ==>
                   |b.subs[who].channel| < CHANNEL_CAPACITY)
    case ReadReplay(id) =>
      id == who && id in b.subs ==>
        (forall i :: 0 <= i < |b.history| && i < b.pruned && Visible(b.history[i], b.subs[id].profile) ==> i + 1 <= b.subs[id].since) &&
        |Seen(b.history, b.subs[id].profile, b.subs[id].since, |b.history|)| <= PRUNE_KEEP
    case ReplayError(id) => id != who
    case _ => true
  }

  function Fanned(b: Bus): int {
    |b.history| - |b.pending|
  }

  /** The live channel holds exactly what was fanned out since it was last read. */
  ghost predicate Buffered(b: Bus, s: Subscriber)
    requires 0 <= Fanned(b)
  {
    0 <= s.taken <= Fanned(b) && s.channel == Seen(b.history, s.profile, s.taken, Fanned(b))
  }

  function Held(p: Phase): seq<Event> {
    if p.Live? && p.held.Some? then [p.held.value] else []
  }

  /** Delivered so far, plus what is in hand, is a prefix of what the subscriber must see. */
  ghost predicate Faithful(b: Bus, s: Subscriber) {
    s.readTo <= |b.history| && s.taken <= |b.history| &&
    match s.phase
    case Attached => s.delivered == []
    case Replaying(rows) => s.taken <= s.readTo && s.delivered + rows == Seen(b.history, s.profile, s.since, s.readTo)
    case Live(_) => s.delivered + Held(s.phase) == Seen(b.history, s.profile, s.since, Max(0, Max(s.readTo, s.taken)))
    case Stopped => true
  }

  ghost predicate Exact(b: Bus, who: int) {
    && Safe(b) && b.pending == b.history[Fanned(b)..]
    && (who in b.subs && b.subs[who].attached ==> Buffered(b, b.subs[who]) && Faithful(b, b.subs[who]))
  }

  lemma {:induction false} SeenPrefix(history: seq<Event>, e: Event, profile: int, lo: int, hi: nat)
    requires hi <= |history|
    ensures Seen(history + [e], profile, lo, hi) == Seen(history, profile, lo, hi)
  {
    if hi > 0 { SeenPrefix(history, e, profile, lo, hi - 1); }
  }

  /** Nothing visible between m and k adds nothing. */
  lemma {:induction false} SeenGap(history: seq<Event>, profile: int, lo: int, m: nat, k: nat)
    requires m <= k <= |history|
    requires forall j :: m <= j < k ==> !Visible(history[j], profile) || j < lo
    ensures Seen(history, profile, lo, k) == Seen(history, profile, lo, m)
    decreases k
  {
    if m < k { SeenGap(history, profile, lo, m, k - 1); }
  }

  lemma {:induction false} SeenContains(history: seq<Event>, profile: int, lo: int, hi: nat, i: nat)
    requires lo < i <= hi <= |history| && 0 < i && Visible(history[i - 1], profile)
    ensures history[i - 1] in Seen(history, profile, lo, hi)
    decreases hi
  {
    if i < hi { SeenContains(history, profile, lo, hi - 1, i); }
  }

  lemma {:induction false} NothingLeft(history: seq<Event>, profile: int, lo: nat, hi: nat)
    requires hi <= |history| && Seen(history, profile, lo, hi) == []
    ensures forall j :: lo <= j < hi ==> !Visible(history[j], profile)
  {
    forall j | lo <= j < hi ensures !Visible(history[j], profile) {
      if Visible(history[j], profile) { SeenContains(history, profile, lo, hi, j + 1); }
    }
  }

  lemma {:induction false} SeenSize(history: seq<Event>, profile: int, lo: int, hi: nat)
    requires hi <= |history|
    ensures |Seen(history, profile, lo, hi)| <= Max(0, hi - lo)
  {
    if hi > 0 { SeenSize(history, profile, lo, hi - 1); }
  }

  /** The first visible event after lo: taking it leaves what is visible after it. */
  lemma {:induction false} SeenTake(history: seq<Event>, profile: int, lo: nat, hi: nat)
    requires hi <= |history| && forall i :: 0 <= i < |history| ==> history[i].seqNo == i + 1
    requires Seen(history, profile, lo, hi) != []
    ensures var e := Seen(history, profile, lo, hi)[0];
            lo < e.seqNo <= hi && history[e.seqNo - 1] == e && Visible(e, profile) &&
            Seen(history, profile, lo, hi)[1..] == Seen(history, profile, e.seqNo, hi) &&
            (forall j :: lo <= j < e.seqNo - 1 ==> !Visible(history[j], profile))
    decreases hi
  {
    var rest := Seen(history, profile, lo, hi - 1);
    if rest != [] {
      SeenTake(history, profile, lo, hi - 1);
    } else {
      NothingLeft(history, profile, lo, hi - 1);
      SeenSize(history, profile, hi, hi);
    }
  }

  /** A live event was already replayed exactly when it is not newer than what was last sent. */
  lemma {:induction false} ReplayedOrNext(b: Bus, s: Subscriber, e: Event)
    requires Safe(b) && Orderly(s) && 0 <= s.taken <= |b.history| && s.readTo <= |b.history|
    requires s.delivered == Seen(b.history, s.profile, s.since, Max(s.readTo, s.taken))
    requires s.taken < e.seqNo <= |b.history| && b.history[e.seqNo - 1] == e && Visible(e, s.profile)
    requires forall j :: s.taken <= j < e.seqNo - 1 ==> !Visible(b.history[j], s.profile)
    ensures Seen(b.history, s.profile, s.since, Max(s.readTo, e.seqNo))
            == s.delivered + if e.seqNo <= s.lastSent then [] else [e]
  {
    hide Safe, Orderly, Seen;
    if e.seqNo <= s.readTo {
      AlreadyReplayed(b, s, e);
    } else {
      NotReplayed(b, s, e);
    }
    assert s.delivered + [] == s.delivered;
  }

  lemma {:induction false} AlreadyReplayed(b: Bus, s: Subscriber, e: Event)
    requires Safe(b) && Orderly(s) && s.readTo <= |b.history|
    requires s.delivered == Seen(b.history, s.profile, s.since, s.readTo)
    requires 0 < e.seqNo <= s.readTo && b.history[e.seqNo - 1] == e && Visible(e, s.profile)
    ensures e.seqNo <= s.lastSent
  {
    LastSentBounds(b, s, s.readTo, e);
    hide Safe, Orderly, Seen;
    if e.seqNo > s.since {
      SeenContains(b.history, s.profile, s.since, s.readTo, e.seqNo);
    }
  }

  /** Beyond m, the next visible event is all that is added up to its number. */
  lemma {:induction false} SeenNext(history: seq<Event>, profile: int, lo: int, m: nat, n: nat)
    requires m < n <= |history| && Visible(history[n - 1], profile)
    requires forall j :: m <= j < n - 1 ==> !Visible(history[j], profile)
    ensures Seen(history, profile, lo, n) == Seen(history, profile, lo, m) + if n > lo then [history[n - 1]] else []
  {
    hide Visible;
    SeenGap(history, profile, lo, m, n - 1);
  }

  lemma {:induction false} NotReplayed(b: Bus, s: Subscriber, e: Event)
    requires Safe(b) && Orderly(s) && s.taken <= |b.history|
    requires 0 <= s.taken && Max(s.readTo, s.taken) < e.seqNo <= |b.history|
    requires s.delivered == Seen(b.history, s.profile, s.since, Max(s.readTo, s.taken))
    requires b.history[e.seqNo - 1] == e && Visible(e, s.profile)
    requires forall j :: s.taken <= j < e.seqNo - 1 ==> !Visible(b.history[j], s.profile)
    ensures Seen(b.history, s.profile, s.since, e.seqNo) == s.delivered + if e.seqNo <= s.lastSent then [] else [e]
  {
    var m: nat := Max(s.readTo, s.taken);
    hide Safe, Orderly, Visible, Seen;
    LastSentBounds(b, s, m, e);
    SeenNext(b.history, s.profile, s.since, m, e.seqNo);
  }

  /** What was sent last bounds everything delivered, and is itself bounded by what was seen. */
  lemma {:induction false} LastSentBounds(b: Bus, s: Subscriber, m: nat, e: Event)
    requires Safe(b) && Orderly(s) && m <= |b.history| && s.delivered == Seen(b.history, s.profile, s.since, m)
    ensures s.since <= s.lastSent <= Max(s.since, m)
    ensures e in s.delivered ==> e.seqNo <= s.lastSent
  {
    SeenIsOrdered(b.history, s.profile, s.since, m);
    hide Seen, Visible;
  }

  lemma {:induction false} ReceiveFaithful(b: Bus, s: Subscriber)
    requires Safe(b) && Orderly(s) && Buffered(b, s) && Faithful(b, s)
    requires s.phase == Live(None) && s.channel != []
    ensures var e := s.channel[0];
            var t := s.(channel := s.channel[1..], taken := Max(s.taken, e.seqNo),
                        phase := Live(if e.seqNo <= s.lastSent then None else Some(e)));
            Buffered(b, t) && Faithful(b, t)
  {
    SeenTake(b.history, s.profile, s.taken, Fanned(b));
    assert s.delivered + [] == s.delivered;
    hide Safe, Orderly, Visible, Seen;
    ReplayedOrNext(b, s, s.channel[0]);
  }

  lemma {:induction false} ReplayFaithful(b: Bus, id: int)
    requires Safe(b) && Enabled(b, ReadReplay(id)) && Hyp(b, ReadReplay(id), id)
    ensures EventsSince(b, b.subs[id].profile, b.subs[id].since)
            == Seen(b.history, b.subs[id].profile, b.subs[id].since, |b.history|)
  {
    var s := b.subs[id];
    SeenAbove(b.history, s.profile, s.since, Max(s.since, b.pruned), |b.history|);
    var rows := Seen(b.history, s.profile, s.since, |b.history|);
    assert rows[..|rows|] == rows;
  }

  /** A higher starting point drops nothing when nothing visible lies in between. */
  lemma {:induction false} SeenAbove(history: seq<Event>, profile: int, lo: int, above: int, hi: nat)
    requires hi <= |history| && lo <= above
    requires forall i :: 0 <= i < hi && i < above && Visible(history[i], profile) ==> i + 1 <= lo
    ensures Seen(history, profile, above, hi) == Seen(history, profile, lo, hi)
  {
    if hi > 0 { SeenAbove(history, profile, lo, above, hi - 1); }
  }

  lemma {:induction false} AdvanceExact(b: Bus, a: Action)
    requires !a.Append? && !a.FanOut? && !a.Prune? && !a.Subscribe? && !a.ReplayError?
    requires Exact(b, a.id) && Enabled(b, a) && Hyp(b, a, a.id)
    requires b.subs[a.id].attached && Advance(b, b.subs[a.id], a).attached
    ensures Buffered(b, Advance(b, b.subs[a.id], a)) && Faithful(b, Advance(b, b.subs[a.id], a))
  {
    var s := b.subs[a.id];
    match a
    case ReadReplay(id) =>
      ReplayFaithful(b, id);
    case SendReplay(_) =>
      assert s.delivered + s.phase.rows == (s.delivered + [s.phase.rows[0]]) + s.phase.rows[1..];
    case GoLive(_) =>
      assert s.delivered + [] == s.delivered;
    case Receive(_) => ReceiveFaithful(b, s);
    case Deliver(_) =>
      assert (s.delivered + [s.phase.held.value]) + [] == s.delivered + [s.phase.held.value];
    case _ =>
  }

  lemma {:induction false} AppendExact(b: Bus, scope: Option<int>, who: int)
    requires Exact(b, who)
    ensures Exact(Apply(b, Append(scope)), who)
  {
    var t := Apply(b, Append(scope));
    var e := Event(|b.history| + 1, scope);
    assert t.history[Fanned(t)..] == b.history[Fanned(b)..] + [e];
    if who in t.subs && t.subs[who].attached {
      var s := b.subs[who];
      SeenPrefix(b.history, e, s.profile, s.taken, Fanned(b));
      SeenPrefix(b.history, e, s.profile, s.since, s.readTo);
      SeenPrefix(b.history, e, s.profile, s.since, Max(0, Max(s.readTo, s.taken)));
    }
    SafeStep(b, Append(scope));
  }

  lemma {:induction false} FanOutExact(b: Bus, who: int)
    requires Exact(b, who) && Enabled(b, FanOut(0)) && Hyp(b, FanOut(0), who)
    ensures Exact(Apply(b, FanOut(0)), who)
  {
    var t := Apply(b, FanOut(0));
    assert b.pending[0] == b.history[Fanned(b)];
    assert t.pending == b.pending[1..];
    SafeStep(b, FanOut(0));
    if who in t.subs && t.subs[who].attached {
      assert Buffered(b, b.subs[who]);
    }
  }

  lemma {:induction false} SubscribeExact(b: Bus, a: Action, who: int)
    requires Exact(b, who) && Enabled(b, a) && (a.Subscribe? || a.Prune?)
    ensures Exact(Apply(b, a), who)
  {
    SafeStep(b, a);
    hide Safe;
    if a.Subscribe? {
      SeenSize(b.history, a.profile, Fanned(b), Fanned(b));
      FannedInRange(b);
    }
  }

  lemma {:induction false} FannedInRange(b: Bus)
    requires Safe(b)
    ensures 0 <= Fanned(b) <= |b.history|
  {
  }

  /** A subscriber's own step changes nothing but that subscriber. */
  lemma {:induction false} OwnStep(b: Bus, a: Action)
    requires Enabled(b, a) && !a.Append? && !a.FanOut? && !a.Prune? && !a.Subscribe?
    ensures a.id in b.subs && Apply(b, a) == b.(subs := b.subs[a.id := Advance(b, b.subs[a.id], a)])
  {
    hide Advance;
  }

  lemma {:induction false} SubscriberStepExact(b: Bus, a: Action, who: int)
    requires Exact(b, who) && Enabled(b, a) && Hyp(b, a, who)
    requires !a.Append? && !a.FanOut? && !a.Prune? && !a.Subscribe?
    ensures Exact(Apply(b, a), who)
  {
    SafeStep(b, a);
    OwnStep(b, a);
    var t := Apply(b, a);
    if a.id == who && t.subs[who].attached {
      assert b.subs[who].attached by { StaysDetached(b, a); }
      AdvanceExact(b, a);
    }
    hide Safe, Advance, Seen, Apply, Hyp, Enabled;
  }

  lemma {:induction false} StaysDetached(b: Bus, a: Action)
    requires Enabled(b, a) && !a.Append? && !a.FanOut? && !a.Prune? && !a.Subscribe?
    ensures Advance(b, b.subs[a.id], a).attached ==> b.subs[a.id].attached
  {
  }

  lemma {:induction false} ExactStep(b: Bus, a: Action, who: int)
    requires Exact(b, who) && Enabled(b, a) && Hyp(b, a, who)
    ensures Exact(Apply(b, a), who)
  {
    hide Exact;
    match a
    case Append(scope) => AppendExact(b, scope, who);
    case FanOut(_) => FanOutExact(b, who);
    case Subscribe(_, _, _) => SubscribeExact(b, a, who);
    case Prune => SubscribeExact(b, a, who);
    case _ => SubscriberStepExact(b, a, who);
  }

  /** A run that meets the hypotheses for one subscriber. */
  ghost predicate CarefulPath(b: Bus, acts: seq<Action>, t: Bus, who: int)
    decreases |acts|
  {
    if acts == [] then b == t
    else Enabled(b, acts[0]) && Hyp(b, acts[0], who) && CarefulPath(Apply(b, acts[0]), acts[1..], t, who)
  }

  lemma {:induction false} ExactAlong(b: Bus, acts: seq<Action>, t: Bus, who: int)
    requires Exact(b, who) && CarefulPath(b, acts, t, who)
    ensures Exact(t, who)
    decreases |acts|
  {
    if acts != [] {
      ExactStep(b, acts[0], who);
      ExactAlong(Apply(b, acts[0]), acts[1..], t, who);
    }
  }

  lemma {:induction false} SeenMonotone(history: seq<Event>, profile: int, lo: int, m: nat, n: nat)
    requires m <= n <= |history|
    ensures Seen(history, profile, lo, m) <= Seen(history, profile, lo, n)
    decreases n
  {
    if m < n { SeenMonotone(history, profile, lo, m, n - 1); }
  }

  /** Under the hypotheses for it, and whatever the other subscribers do, a live subscriber has always received an initial segment of
      everything it must see, and once nothing is in flight it has received every visible
      event newer than `since` exactly once, in order. */
  lemma ExactlyOnce(acts: seq<Action>, t: Bus, id: int)
    requires CarefulPath(START, acts, t, id) && id in t.subs && t.subs[id].attached && t.subs[id].phase.Live?
    ensures var s := t.subs[id];
            && (forall i, j :: 0 <= i < j < |s.delivered| ==> s.delivered[i].seqNo < s.delivered[j].seqNo)
            && (forall e :: e in s.delivered ==> For(s, e) && e in t.history)
            && (forall e, x :: e in t.history && For(s, e) && x in s.delivered && e.seqNo < x.seqNo ==> e in s.delivered)
            && (t.pending == [] && s.channel == [] && s.phase.held.None? ==>
                  forall e :: e in s.delivered <==>
                    e in t.history && e.seqNo > s.since && (e.profile == None || e.profile == Some(s.profile)))
  {
    assert Exact(START, id);
    ExactAlong(START, acts, t, id);
    assert Safe(t);
    hide CarefulPath, Exact;
    LiveIsExact(t, id);
    var s := t.subs[id];
    SeenIsOrdered(t.history, s.profile, s.since, |t.history|);
    forall e
      ensures e in Seen(t.history, s.profile, s.since, |t.history|) <==>
              e in t.history && e.seqNo > s.since && (e.profile == None || e.profile == Some(s.profile))
    {
      SeenMembers(t.history, s.profile, s.since, |t.history|, e);
    }
    hide Seen, Safe;
    PrefixMembers(s.delivered, Seen(t.history, s.profile, s.since, |t.history|));
  }

  /** The event is meant for this subscriber: its own or instance-wide, and newer than `since`. */
  predicate For(s: Subscriber, e: Event) {
    (e.profile == None || e.profile == Some(s.profile)) && e.seqNo > s.since
  }

  /** What a profile is to see, in the events' own fields. */
  lemma {:induction false} SeenMembers(history: seq<Event>, profile: int, lo: int, hi: nat, e: Event)
    requires hi <= |history| && forall i :: 0 <= i < |history| ==> history[i].seqNo == i + 1
    ensures e in Seen(history, profile, lo, hi) <==>
            e in history[..hi] && e.seqNo > lo && (e.profile == None || e.profile == Some(profile))
    ensures hi == |history| ==> history[..hi] == history
  {
    if hi > 0 {
      SeenMembers(history, profile, lo, hi - 1, e);
      assert history[..hi] == history[..hi - 1] + [history[hi - 1]];
    }
  }

  /** An initial segment of an increasing list holds everything below its members. */
  lemma {:induction false} PrefixMembers(head: seq<Event>, all: seq<Event>)
    requires head <= all && forall i, j :: 0 <= i < j < |all| ==> all[i].seqNo < all[j].seqNo
    ensures forall e :: e in head ==> e in all
    ensures forall e, x :: e in all && x in head && e.seqNo < x.seqNo ==> e in head
    ensures forall i, j :: 0 <= i < j < |head| ==> head[i].seqNo < head[j].seqNo
  {
    forall i | 0 <= i < |head|
      ensures head[i] == all[i]
    {
    }
    forall e, x | e in all && x in head && e.seqNo < x.seqNo
      ensures e in head
    {
      var i :| 0 <= i < |all| && all[i] == e;
      var j :| 0 <= j < |head| && head[j] == x;
      if i < |head| {
        assert head[i] == e;
      }
    }
  }

  lemma {:induction false} LiveIsExact(t: Bus, id: int)
    requires Exact(t, id) && id in t.subs && t.subs[id].attached && t.subs[id].phase.Live?
    ensures var s := t.subs[id];
            s.delivered <= Seen(t.history, s.profile, s.since, |t.history|) &&
            (t.pending == [] && s.channel == [] && s.phase.held.None? ==>
               s.delivered == Seen(t.history, s.profile, s.since, |t.history|))
  {
    var s := t.subs[id];
    assert Buffered(t, s) && Faithful(t, s);
    hide Exact, Safe, Orderly;
    var m := Max(s.readTo, s.taken);
    SeenMonotone(t.history, s.profile, s.since, m, |t.history|);
    assert s.delivered <= s.delivered + Held(s.phase);
    if t.pending == [] && s.channel == [] && s.phase.held.None? {
      assert s.delivered + [] == s.delivered;
      NothingLeft(t.history, s.profile, s.taken, |t.history|);
      SeenGap(t.history, s.profile, s.since, m, |t.history|);
    }
  }

  /** A resume that is at most `PRUNE_KEEP` events behind meets the replay hypothesis. */
  lemma RecentResume(acts: seq<Action>, b: Bus, id: int)
    requires Path(START, acts, b) && Enabled(b, ReadReplay(id))
    requires |b.history| - b.subs[id].since <= 10000
    ensures Hyp(b, ReadReplay(id), id)
  {
    PrunedBound(START, acts, b);
    SeenSize(b.history, b.subs[id].profile, b.subs[id].since, |b.history|);
  }

  lemma {:induction false} PrunedBound(b: Bus, acts: seq<Action>, t: Bus)
    requires Path(b, acts, t) && b.pruned <= Max(0, |b.history| - PRUNE_KEEP)
    ensures t.pruned <= Max(0, |t.history| - PRUNE_KEEP)
    decreases |acts|
  {
    if acts != [] { PrunedBound(Apply(b, acts[0]), acts[1..], t); }
  }

  // ---------------------------------------------------------------------
  // Whether a replay covers what was dropped

  /** The event has left the publisher, and is not on its way to this subscriber. */
  ghost predicate Past(b: Bus, id: int, e: Event) {
    && e.seqNo <= |b.history| && e !in b.pending && id in b.subs && e !in b.subs[id].channel && e !in Held(b.subs[id].phase)
  }

  /** Whether the subscriber has received the event, or will from its replay, is settled. */
  ghost predicate Decided(b: Bus, id: int, e: Event, received: bool)
    requires id in b.subs
  {
    match b.subs[id].phase
    case Attached => false
    case Replaying(rows) => e in b.subs[id].delivered || e in rows <==> received
    case Live(_) => e in b.subs[id].delivered <==> received
    case Stopped => true
  }

  lemma {:induction false} PastStep(b: Bus, a: Action, id: int, e: Event)
    requires Safe(b) && Past(b, id, e) && Enabled(b, a)
    ensures Past(Apply(b, a), id, e)
    ensures Apply(b, a).subs[id].profile == b.subs[id].profile && Apply(b, a).subs[id].since == b.subs[id].since
    ensures e in b.history ==> e in Apply(b, a).history
  {
    hide Safe, Seen;
    match a
    case FanOut(i) => assert forall x :: x in Without(b.pending, i) ==> x in b.pending;
    case _ =>
  }

  lemma {:induction false} DecidedStep(b: Bus, a: Action, id: int, e: Event, received: bool)
    requires Past(b, id, e) && Decided(b, id, e, received) && Enabled(b, a)
    ensures id in Apply(b, a).subs && Decided(Apply(b, a), id, e, received)
  {
    var s := b.subs[id];
    if a.SendReplay? && a.id == id {
      assert s.phase.rows == [s.phase.rows[0]] + s.phase.rows[1..];
    }
  }

  lemma {:induction false} PastAlong(b: Bus, acts: seq<Action>, t: Bus, id: int, e: Event)
    requires Safe(b) && Past(b, id, e) && Path(b, acts, t)
    ensures Safe(t) && Past(t, id, e) && t.subs[id].profile == b.subs[id].profile && t.subs[id].since == b.subs[id].since
    ensures e in b.history ==> e in t.history
    ensures forall received :: Decided(b, id, e, received) ==> Decided(t, id, e, received)
    decreases |acts|
  {
    if acts != [] {
      SafeStep(b, acts[0]);
      PastStep(b, acts[0], id, e);
      forall received | Decided(b, id, e, received) ensures Decided(Apply(b, acts[0]), id, e, received) {
        DecidedStep(b, acts[0], id, e, received);
      }
      hide Safe, Past, Decided;
      PastAlong(Apply(b, acts[0]), acts[1..], t, id, e);
    }
  }

  /** The replay reads an event exactly when it is newer than `since`, not pruned, and among the
      first `PRUNE_KEEP` visible rows. */
  predicate Replayed(b: Bus, profile: int, since: int, e: Event) {
    && since < e.seqNo && b.pruned < e.seqNo <= |b.history|
    && |Seen(b.history, profile, Max(since, b.pruned), e.seqNo)| <= PRUNE_KEEP
  }

  /** The visible events that a replay of this subscriber reads up to and including e. */
  function UpTo(history: seq<Event>, profile: int, since: int, pruned: int, e: Event): set<Event> {
    set x | x in history && (x.profile == None || x.profile == Some(profile)) && since < x.seqNo && pruned < x.seqNo <= e.seqNo
  }

  /** What a replay reads, in the events' own fields: all retained events of the profile, or of
      none, after `since`, as far as the first ten thousand of them go, in order. */
  lemma {:induction false} ReplayInFields(b: Bus, profile: int, since: int)
    requires Safe(b)
    ensures |EventsSince(b, profile, since)| <= 10000
    ensures forall e :: e in EventsSince(b, profile, since) ==>
              e in b.history && (e.profile == None || e.profile == Some(profile)) && e.seqNo > since && e.seqNo > b.pruned
    ensures var rows := EventsSince(b, profile, since); forall i, j :: 0 <= i < j < |rows| ==> rows[i].seqNo < rows[j].seqNo
    ensures forall e :: e in b.history && (e.profile == None || e.profile == Some(profile)) && e.seqNo > since && e.seqNo > b.pruned ==>
              (e in EventsSince(b, profile, since) <==> |UpTo(b.history, profile, since, b.pruned, e)| <= 10000)
  {
    var lo := Max(since, b.pruned);
    var all := Seen(b.history, profile, lo, |b.history|);
    SeenIsOrdered(b.history, profile, lo, |b.history|);
    forall e
      ensures e in all <==> e in b.history && e.seqNo > lo && (e.profile == None || e.profile == Some(profile))
    {
      SeenMembers(b.history, profile, lo, |b.history|, e);
    }
    forall e | e in EventsSince(b, profile, since)
      ensures e in all
    {
    }
    forall e | e in b.history && (e.profile == None || e.profile == Some(profile)) && e.seqNo > lo
      ensures e in EventsSince(b, profile, since) <==> |UpTo(b.history, profile, since, b.pruned, e)| <= 10000
    {
      ReplayReads(b, profile, since, e);
      UpToCounts(b, profile, since, e);
    }
  }

  lemma {:induction false} UpToCounts(b: Bus, profile: int, since: int, e: Event)
    requires Safe(b) && e in b.history
    ensures 0 <= e.seqNo <= |b.history|
    ensures |UpTo(b.history, profile, since, b.pruned, e)| == |Seen(b.history, profile, Max(since, b.pruned), e.seqNo)|
  {
    var lo, n := Max(since, b.pruned), e.seqNo;
    var i :| 0 <= i < |b.history| && b.history[i] == e;
    var rows := Seen(b.history, profile, lo, n);
    SeenIsOrdered(b.history, profile, lo, n);
    forall x
      ensures x in rows <==> x in UpTo(b.history, profile, since, b.pruned, e)
    {
      SeenMembers(b.history, profile, lo, n, x);
      hide Seen;
      if x in UpTo(b.history, profile, since, b.pruned, e) {
        var j :| 0 <= j < |b.history| && b.history[j] == x;
        assert x.seqNo == j + 1 && b.history[..n][j] == x;
      }
    }
    hide Seen, UpTo;
    IncreasingCounts(rows, UpTo(b.history, profile, since, b.pruned, e));
  }

  /** Events in increasing order are all different. */
  lemma {:induction false} IncreasingCounts(rows: seq<Event>, es: set<Event>)
    requires (forall i, j :: 0 <= i < j < |rows| ==> rows[i].seqNo < rows[j].seqNo) && forall x :: x in es <==> x in rows
    ensures |es| == |rows|
  {
    if rows != [] {
      var rest, last := rows[..|rows| - 1], rows[|rows| - 1];
      assert rows == rest + [last];
      IncreasingCounts(rest, es - {last});
      assert es == (es - {last}) + {last};
    } else {
      assert es == {};
    }
  }

  /** The hypotheses of ExactlyOnce in fields: the fan-out takes the oldest pending event and finds
      room in this subscriber's buffer, and its replay succeeds, misses no pruned event it needs,
      and has at most ten thousand to read. */
  lemma {:induction false} HypInFields(b: Bus, a: Action, who: int)
    requires Safe(b) && Enabled(b, a)
    ensures Hyp(b, a, who) <==>
            && (a.FanOut? ==> a.index == 0)
            && (a.FanOut? && who in b.subs && b.subs[who].attached && Wanted(b.subs[who].profile, b.pending[a.index]) ==>
                  |b.subs[who].channel| < 64)
            && (a == ReadReplay(who) ==> forall e :: e in b.history && Wanted(b.subs[who].profile, e) && e.seqNo <= b.pruned ==>
                  e.seqNo <= b.subs[who].since)
            && (a == ReadReplay(who) ==> |After(b.history, b.subs[who].profile, b.subs[who].since)| <= 10000)
            && a != ReplayError(who)
  {
    if a == ReadReplay(who) {
      var s := b.subs[who];
      var rows := Seen(b.history, s.profile, s.since, |b.history|);
      SeenIsOrdered(b.history, s.profile, s.since, |b.history|);
      forall e
        ensures e in rows <==> e in After(b.history, s.profile, s.since)
      {
        SeenMembers(b.history, s.profile, s.since, |b.history|, e);
      }
      IncreasingCounts(rows, After(b.history, s.profile, s.since));
      hide Seen, After;
      forall e | e in b.history && Wanted(s.profile, e)
        ensures exists i :: 0 <= i < |b.history| && b.history[i] == e && e.seqNo == i + 1
      {
        var i :| 0 <= i < |b.history| && b.history[i] == e;
      }
    }
  }

  predicate Wanted(profile: int, e: Event) {
    e.profile == None || e.profile == Some(profile)
  }

  function After(history: seq<Event>, profile: int, since: int): set<Event> {
    set e | e in history && Wanted(profile, e) && e.seqNo > since
  }

  lemma {:induction false} ReplayReads(b: Bus, profile: int, since: int, e: Event)
    requires Safe(b) && e in b.history && Visible(e, profile)
    ensures e in EventsSince(b, profile, since) <==> Replayed(b, profile, since, e)
  {
    var lo, n := Max(since, b.pruned), e.seqNo;
    var i :| 0 <= i < |b.history| && b.history[i] == e;
    var rows := Seen(b.history, profile, lo, |b.history|);
    SeenIsOrdered(b.history, profile, lo, |b.history|);
    if lo < n {
      SeenMonotone(b.history, profile, lo, n, |b.history|);
      var head := Seen(b.history, profile, lo, n);
      assert head == Seen(b.history, profile, lo, n - 1) + [e];
      assert rows[|head| - 1] == e;
      assert e in rows[..Min(PRUNE_KEEP, |rows|)] <==> |head| - 1 < PRUNE_KEEP by {
        if e in rows[..Min(PRUNE_KEEP, |rows|)] {
          var k :| 0 <= k < PRUNE_KEEP && k < |rows| && rows[k] == e;
          assert k == |head| - 1;
        }
      }
    }
  }

  lemma {:induction false} ReplayedInFields(b: Bus, profile: int, since: int, e: Event)
    requires Safe(b) && e in b.history
    ensures Replayed(b, profile, since, e) <==>
            since < e.seqNo && b.pruned < e.seqNo && |UpTo(b.history, profile, since, b.pruned, e)| <= 10000
  {
    UpToCounts(b, profile, since, e);
  }

  /** A client that lost an event live reconnects from its last received number: whatever happens
      meanwhile and afterwards, once the new subscription is live the event has been delivered to
      it if and only if its replay succeeded and the last number was below the event's, the event
      had not been pruned, and at most `PRUNE_KEEP` visible rows led up to it. Nothing the old
      subscription received is received again. */
  lemma {:induction false} ReplayCoversIff(c: Bus, gone: int, id: int, before: seq<Action>, b: Bus, read: Action,
                                           after: seq<Action>, t: Bus, e: Event)
    requires Safe(c) && gone in c.subs && id !in c.subs
    requires e in c.history && e !in c.pending && (e.profile == None || e.profile == Some(c.subs[gone].profile))
    requires Path(Apply(c, Subscribe(id, c.subs[gone].profile, c.subs[gone].lastSent)), before, b)
    requires (read == ReadReplay(id) || read == ReplayError(id)) && Enabled(b, read)
    requires Path(Apply(b, read), after, t)
    ensures id in t.subs
    ensures t.subs[id].phase.Live? ==>
              (e in t.subs[id].delivered <==>
                 read.ReadReplay? && c.subs[gone].lastSent < e.seqNo && b.pruned < e.seqNo &&
                 |UpTo(b.history, c.subs[gone].profile, c.subs[gone].lastSent, b.pruned, e)| <= 10000)
    ensures e in c.subs[gone].delivered ==> e !in t.subs[id].delivered
  {
    hide Seen, Replayed, Path;
    var s := c.subs[gone];
    var resume := Subscribe(id, s.profile, s.lastSent);
    var r := Apply(c, resume);
    SafeStep(c, resume);
    PastAlong(r, before, b, id, e);
    SafeStep(b, read);
    PastStep(b, read, id, e);
    ReplayReads(b, s.profile, s.lastSent, e);
    UpToCounts(b, s.profile, s.lastSent, e);
    ReplayedInFields(b, s.profile, s.lastSent, e);
    var n := Apply(b, read);
    assert b.subs[id].delivered == [];
    assert Decided(n, id, e, read.ReadReplay? && Replayed(b, s.profile, s.lastSent, e));
    PastAlong(n, after, t, id, e);
    assert Orderly(t.subs[id]) && t.subs[id].since == s.lastSent;
  }

  /** Fan-out out of order does lose events: two publishers append 1 and 2, the second fans
      out first, and the live subscriber ends quiescent having received only event 2. */
  lemma OutOfOrderFanOutLoses(profile: int)
    ensures exists t: Bus, acts :: Path(START, acts, t) && 0 in t.subs && t.subs[0].phase == Live(None) &&
              t.pending == [] && t.subs[0].channel == [] &&
              t.subs[0].delivered == [Event(2, None)] &&
              Seen(t.history, profile, t.subs[0].since, |t.history|) == [Event(1, None), Event(2, None)]
  {
    var e1, e2 := Event(1, None), Event(2, None);
    var s0 := Subscriber(profile, 0, [], Live(None), 0, [], 0, 0, true);
    var t := Bus([e1, e2], 0, [], map[0 := s0.(taken := 2, delivered := [e2], lastSent := 2)]);
    QuietStart(profile);
    var late := LateFanOut(s0);
    PathAppend(START, [Subscribe(0, profile, 0), ReadReplay(0), GoLive(0)], Bus([], 0, [], map[0 := s0]), late, t);
    assert Seen(t.history, profile, 0, 0) == [];
    assert Seen(t.history, profile, 0, 1) == [] + [e1];
    assert Seen(t.history, profile, 0, 2) == [e1] + [e2];
  }

  /** The first hi events but the first lo, all instance-wide. */
  function Numbers(lo: nat, hi: nat): seq<Event>
    requires lo <= hi
  {
    seq(hi - lo, i requires 0 <= i < hi - lo => Event(lo + i + 1, None))
  }

  function LastOf(delivered: seq<Event>): int {
    if delivered == [] then 0 else delivered[|delivered| - 1].seqNo
  }

  /** A bus that has published n events in order, with one live subscriber. */
  function Busy(profile: int, n: nat, channel: seq<Event>, delivered: seq<Event>): Bus {
    Bus(Numbers(0, n), 0, [],
        map[0 := Subscriber(profile, 0, channel, Live(None), LastOf(delivered), delivered, LastOf(delivered), 0, true)])
  }

  lemma {:induction false} PublishOne(profile: int, n: nat, channel: seq<Event>, delivered: seq<Event>)
    ensures Path(Busy(profile, n, channel, delivered), [Append(None), FanOut(0)],
                 Busy(profile, n + 1, if |channel| < CHANNEL_CAPACITY then channel + [Event(n + 1, None)] else channel, delivered))
  {
    var b, e := Busy(profile, n, channel, delivered), Event(n + 1, None);
    var m := Apply(b, Append(None));
    assert m.history == Numbers(0, n + 1) && m.pending == [] + [e];
    var t := Apply(m, FanOut(0));
    assert Without([e], 0) == [];
    assert t.subs == map[0 := Offer(b.subs[0], e)];
    assert Path(m, [FanOut(0)], t);
  }

  lemma {:induction false} ConsumeOne(profile: int, n: nat, channel: seq<Event>, delivered: seq<Event>)
    requires channel != [] && channel[0].seqNo > LastOf(delivered)
    ensures Path(Busy(profile, n, channel, delivered), [Receive(0), Deliver(0)],
                 Busy(profile, n, channel[1..], delivered + [channel[0]]))
  {
    var b, e := Busy(profile, n, channel, delivered), channel[0];
    var m := Apply(b, Receive(0));
    var t := Apply(m, Deliver(0));
    assert t.subs == map[0 := Busy(profile, n, channel[1..], delivered + [e]).subs[0]];
    assert Path(m, [Deliver(0)], t);
  }

  /** Nobody reads: the channel takes the first 64 events. */
  lemma {:induction false} Fill(profile: int, n: nat) returns (acts: seq<Action>)
    requires n <= CHANNEL_CAPACITY
    ensures Path(Busy(profile, 0, [], []), acts, Busy(profile, n, Numbers(0, n), []))
  {
    if n == 0 {
      acts := [];
      assert Numbers(0, 0) == [];
    } else {
      var rest := Fill(profile, n - 1);
      PublishOne(profile, n - 1, Numbers(0, n - 1), []);
      assert Numbers(0, n - 1) + [Event(n, None)] == Numbers(0, n);
      PathAppend(Busy(profile, 0, [], []), rest, Busy(profile, n - 1, Numbers(0, n - 1), []), [Append(None), FanOut(0)],
                 Busy(profile, n, Numbers(0, n), []));
      acts := rest + [Append(None), FanOut(0)];
    }
  }

  lemma {:induction false} Consume(profile: int, n: nat, channel: seq<Event>, delivered: seq<Event>) returns (acts: seq<Action>)
    requires Increasing(channel, LastOf(delivered))
    ensures Path(Busy(profile, n, channel, delivered), acts, Busy(profile, n, [], delivered + channel))
    decreases |channel|
  {
    if channel == [] {
      acts := [];
      assert delivered + [] == delivered;
    } else {
      hide Path, Busy;
      var more := delivered + [channel[0]];
      ConsumeOne(profile, n, channel, delivered);
      var rest := Consume(profile, n, channel[1..], more);
      assert more + channel[1..] == delivered + channel;
      PathAppend(Busy(profile, n, channel, delivered), [Receive(0), Deliver(0)], Busy(profile, n, channel[1..], more), rest,
                 Busy(profile, n, [], delivered + channel));
      acts := [Receive(0), Deliver(0)] + rest;
    }
  }

  lemma {:induction false} OverflowRun(profile: int) returns (acts: seq<Action>)
    ensures Path(Busy(profile, 0, [], []), acts, Busy(profile, 66, [], Numbers(0, 64) + [Event(66, None)]))
  {
    hide Path, Busy;
    var full, publish, consume := Numbers(0, 64), [Append(None), FanOut(0)], [Receive(0), Deliver(0)];
    var fill := Fill(profile, 64);
    PublishOne(profile, 64, full, []);
    var one: seq<Event> := [] + [full[0]];
    ConsumeOne(profile, 65, full, []);
    PublishOne(profile, 65, full[1..], one);
    var rest := full[1..] + [Event(66, None)];
    var drain := Consume(profile, 66, rest, one);
    assert one + rest == full + [Event(66, None)];
    var t := Busy(profile, 66, [], full + [Event(66, None)]);
    PathAppend(Busy(profile, 65, full[1..], one), publish, Busy(profile, 66, rest, one), drain, t);
    PathAppend(Busy(profile, 65, full, []), consume, Busy(profile, 65, full[1..], one), publish + drain, t);
    PathAppend(Busy(profile, 64, full, []), publish, Busy(profile, 65, full, []), consume + (publish + drain), t);
    PathAppend(Busy(profile, 0, [], []), fill, Busy(profile, 64, full, []), publish + (consume + (publish + drain)), t);
    acts := fill + (publish + (consume + (publish + drain)));
  }

  /** A full buffer loses an event for good, although every fan-out is in append order: 65 events
      are published before the subscriber reads, so the last is dropped; it then reads one, a
      66th event fits, and everything buffered is delivered. Event 65 is missing, its number has
      been overtaken, and so no resume from the last number will replay it. */
  lemma OverflowLoses(profile: int)
    ensures exists t: Bus, acts :: Path(START, acts, t) && 0 in t.subs && t.subs[0].phase == Live(None) &&
              t.pending == [] && t.subs[0].channel == [] && t.history == Numbers(0, 66) &&
              t.subs[0].delivered == Numbers(0, 64) + [Event(66, None)] && t.subs[0].lastSent == 66 &&
              Event(65, None) in t.history && Event(65, None) !in t.subs[0].delivered
  {
    var end := Numbers(0, 64) + [Event(66, None)];
    QuietStart(profile);
    assert Numbers(0, 0) == [];
    var acts := OverflowRun(profile);
    var t := Busy(profile, 66, [], end);
    PathAppend(START, [Subscribe(0, profile, 0), ReadReplay(0), GoLive(0)], Busy(profile, 0, [], []), acts, t);
    hide Path;
    assert t.history[64] == Event(65, None);
  }

  /** A bus with two appended events, `pending` of them not fanned out, and one subscriber. */
  function TwoAppended(pending: seq<Event>, s: Subscriber): Bus {
    Bus([Event(1, None), Event(2, None)], 0, pending, map[0 := s])
  }

  predicate Fresh(s: Subscriber) {
    s.attached && s.channel == [] && s.delivered == [] && s.phase == Live(None) && s.lastSent == 0 && s.taken == 0
  }

  function GotSecond(s: Subscriber): Subscriber {
    s.(taken := 2, delivered := [Event(2, None)], lastSent := 2)
  }

  lemma {:induction false} AppendTwo(s: Subscriber)
    requires Fresh(s)
    ensures Path(Bus([], 0, [], map[0 := s]), [Append(None), Append(None)], TwoAppended([Event(1, None), Event(2, None)], s))
  {
    var b0 := Bus([], 0, [], map[0 := s]);
    assert Path(Apply(b0, Append(None)), [Append(None)], TwoAppended([Event(1, None), Event(2, None)], s));
  }

  lemma {:induction false} FanOutSecond(s: Subscriber)
    requires Fresh(s)
    ensures Path(TwoAppended([Event(1, None), Event(2, None)], s), [FanOut(1)],
                 TwoAppended([Event(1, None)], s.(channel := [Event(2, None)])))
  {
    var e1, e2 := Event(1, None), Event(2, None);
    assert Without([e1, e2], 1) == [e1] && [] + [e2] == [e2];
    assert Offer(s, e2) == s.(channel := [e2]);
    assert Apply(TwoAppended([e1, e2], s), FanOut(1)) == TwoAppended([e1], s.(channel := [e2]));
  }

  lemma {:induction false} ReceiveSecond(s: Subscriber)
    requires Fresh(s)
    ensures Path(TwoAppended([Event(1, None)], s.(channel := [Event(2, None)])), [Receive(0), Deliver(0)],
                 TwoAppended([Event(1, None)], GotSecond(s)))
  {
    var b := TwoAppended([Event(1, None)], s.(channel := [Event(2, None)]));
    var n := Apply(b, Receive(0));
    assert [Event(2, None)][1..] == [] && [] + [Event(2, None)] == [Event(2, None)];
    assert n == TwoAppended([Event(1, None)], s.(taken := 2, phase := Live(Some(Event(2, None)))));
    assert Apply(n, Deliver(0)) == TwoAppended([Event(1, None)], GotSecond(s));
    assert Path(n, [Deliver(0)], TwoAppended([Event(1, None)], GotSecond(s)));
  }

  lemma {:induction false} DropFirst(s: Subscriber)
    requires Fresh(s)
    ensures Path(TwoAppended([Event(1, None)], GotSecond(s)), [FanOut(0), Receive(0)], TwoAppended([], GotSecond(s)))
  {
    var e1 := Event(1, None);
    var g := GotSecond(s);
    assert Without([e1], 0) == [] && [] + [e1] == [e1];
    assert Offer(g, e1) == g.(channel := [e1]);
    var b := TwoAppended([], g.(channel := [e1]));
    assert Apply(TwoAppended([e1], g), FanOut(0)) == b;
    assert Apply(b, Receive(0)) == TwoAppended([], g);
    assert Path(b, [Receive(0)], TwoAppended([], g));
  }

  lemma LateFanOut(s0: Subscriber) returns (late: seq<Action>)
    requires Fresh(s0)
    ensures Path(Bus([], 0, [], map[0 := s0]), late, TwoAppended([], GotSecond(s0)))
  {
    hide Path, TwoAppended;
    var both, one := [Event(1, None), Event(2, None)], [Event(1, None)];
    var sent := s0.(channel := [Event(2, None)]);
    AppendTwo(s0);
    FanOutSecond(s0);
    ReceiveSecond(s0);
    DropFirst(s0);
    var end := TwoAppended([], GotSecond(s0));
    PathAppend(TwoAppended(one, sent), [Receive(0), Deliver(0)], TwoAppended(one, GotSecond(s0)), [FanOut(0), Receive(0)], end);
    PathAppend(TwoAppended(both, s0), [FanOut(1)], TwoAppended(one, sent), [Receive(0), Deliver(0)] + [FanOut(0), Receive(0)], end);
    late := [Append(None), Append(None)] + ([FanOut(1)] + ([Receive(0), Deliver(0)] + [FanOut(0), Receive(0)]));
    PathAppend(Bus([], 0, [], map[0 := s0]), [Append(None), Append(None)], TwoAppended(both, s0),
               [FanOut(1)] + ([Receive(0), Deliver(0)] + [FanOut(0), Receive(0)]), end);
  }

  lemma QuietStart(profile: int)
    ensures Path(START, [Subscribe(0, profile, 0), ReadReplay(0), GoLive(0)],
                 Bus([], 0, [], map[0 := Subscriber(profile, 0, [], Live(None), 0, [], 0, 0, true)]))
  {
    var s := Subscriber(profile, 0, [], Attached, 0, [], 0, 0, true);
    var b1 := Bus([], 0, [], map[0 := s]);
    var b2 := Bus([], 0, [], map[0 := s.(phase := Replaying([]))]);
    var b3 := Bus([], 0, [], map[0 := s.(phase := Live(None))]);
    assert Apply(START, Subscribe(0, profile, 0)) == b1;
    assert Apply(b1, ReadReplay(0)) == b2;
    assert Apply(b2, GoLive(0)) == b3;
    assert Path(b2, [GoLive(0)], b3);
    assert Path(b1, [ReadReplay(0), GoLive(0)], b3);
  }

  lemma {:induction false} PathAppend(b: Bus, a1: seq<Action>, m: Bus, a2: seq<Action>, t: Bus)
    requires Path(b, a1, m) && Path(m, a2, t)
    ensures Path(b, a1 + a2, t)
    decreases |a1|
  {
    if a1 == [] {
      assert a1 + a2 == a2;
    } else {
      PathAppend(Apply(b, a1[0]), a1[1..], m, a2, t);
      assert (a1 + a2)[1..] == a1[1..] + a2;
    }
  }

  // ---------------------------------------------------------------------
  // The bus itself

  class Broker {
    var history: seq<Event>
    var pruned: nat
    var pending: seq<Event>
    var subs: map<int, Subscriber>
    var published: nat

    ghost function View(): Bus
      reads this
    {
      Bus(history, pruned, pending, subs)
    }

    constructor ()
      ensures View() == START && published == 0
    {
      history, pruned, pending, subs, published := [], 0, [], map[], 0;
    }

    /** Publish, first half: the durable append. */
    method AppendEvent(scope: Option<int>) returns (e: Event)
      modifies this
      ensures View() == Apply(old(View()), Append(scope)) && published == old(published)
      ensures e == Event(|old(history)| + 1, scope) && history == old(history) + [e] && pending == old(pending) + [e]
      ensures subs == old(subs) && pruned == old(pruned)
    {
      e := Event(|history| + 1, scope);
      history := history + [e];
      pending := pending + [e];
    }

    /** Publish, second half: offer the event to each subscriber, in whatever order the map
        yields them; every thousandth publication asks for pruning. */
    method FanOutEvent(index: nat) returns (prune: bool)
      requires index < |pending|
      modifies this
      ensures View() == Apply(old(View()), FanOut(index))
      ensures history == old(history) && pending == old(pending)[..index] + old(pending)[index + 1..] && subs.Keys == old(subs).Keys
      ensures var e := old(pending)[index];
              forall id :: id in subs ==>
                var s := old(subs)[id];
                subs[id] == if s.attached && (e.profile == None || e.profile == Some(s.profile)) && |s.channel| < 64
                            then s.(channel := s.channel + [e]) else s
      ensures published == old(published) + 1 && (prune <==> published % 1000 == 0)
    {
      var e, todo := pending[index], subs.Keys;
      while todo != {}
        invariant todo <= subs.Keys == old(subs).Keys
        invariant forall id :: id in subs ==> subs[id] == if id in todo then old(subs)[id] else Offer(old(subs)[id], e)
        modifies this`subs
      {
        SomeId(todo);
        var id :| id in todo;
        var s := subs[id];
        if s.attached && Visible(e, s.profile) {
          if |s.channel| < CHANNEL_CAPACITY {
            subs := subs[id := s.(channel := s.channel + [e])];
          }
        }
        todo := todo - {id};
      }
      assert forall id :: id in subs ==> subs[id] == Offer(old(subs)[id], e);
      assert subs == map id | id in old(subs) :: Offer(old(subs)[id], e);
      pending := pending[..index] + pending[index + 1..];
      published := published + 1;
      prune := published % 1000 == 0;
    }

    method PruneEvents()
      modifies this`pruned
      ensures View() == Apply(old(View()), Prune)
      ensures pruned == if |history| - 10000 > old(pruned) then |history| - 10000 else old(pruned)
    {
      if |history| - PRUNE_KEEP > pruned {
        pruned := |history| - PRUNE_KEEP;
      }
    }

    /** Attach first; replay comes later on the subscriber's own goroutine. */
    method SubscribeFrom(id: int, profile: int, since: int)
      requires id !in subs
      modifies this`subs
      ensures View() == Apply(old(View()), Subscribe(id, profile, since))
      ensures subs.Keys == old(subs).Keys + {id} && (forall k :: k in old(subs) ==> subs[k] == old(subs)[k])
      ensures var s := subs[id];
              s.attached && s.phase.Attached? && s.channel == [] && s.delivered == [] && s.profile == profile && s.since == since
    {
      subs := subs[id := Subscriber(profile, since, [], Attached, since, [], |history| - |pending|, 0, true)];
    }

    /** One turn of the live loop: skip what was already replayed, hold the rest. */
    method ReceiveLive(id: int)
      requires id in subs && subs[id].phase == Live(None) && subs[id].channel != []
      modifies this`subs
      ensures View() == Apply(old(View()), Receive(id))
      ensures var s, e := old(subs)[id], old(subs)[id].channel[0];
              subs == old(subs)[id := s.(channel := s.channel[1..], taken := subs[id].taken,
                                         phase := if e.seqNo <= s.lastSent then Live(None) else Live(Some(e)))]
    {
      var s := subs[id];
      var e := s.channel[0];
      s := s.(channel := s.channel[1..], taken := Max(s.taken, e.seqNo));
      if e.seqNo <= s.lastSent {
        subs := subs[id := s.(phase := Live(None))];
      } else {
        subs := subs[id := s.(phase := Live(Some(e)))];
      }
    }

    /** Hand the next replayed row, or the held live event, to the consumer. */
    method SendNext(id: int)
      requires id in subs
      requires (subs[id].phase.Replaying? && subs[id].phase.rows != []) || (subs[id].phase.Live? && subs[id].phase.held.Some?)
      modifies this`subs
      ensures var s := old(subs)[id];
              var e := if s.phase.Live? then s.phase.held.value else s.phase.rows[0];
              subs == old(subs)[id := s.(delivered := s.delivered + [e], lastSent := e.seqNo,
                                         phase := if s.phase.Live? then Live(None) else Replaying(s.phase.rows[1..]))]
      ensures View() == Apply(old(View()), if old(subs)[id].phase.Live? then Deliver(id) else SendReplay(id))
    {
      var s := subs[id];
      var e := if s.phase.Live? then s.phase.held.value else s.phase.rows[0];
      var rest := if s.phase.Live? then Live(None) else Replaying(s.phase.rows[1..]);
      subs := subs[id := s.(delivered := s.delivered + [e], lastSent := e.seqNo, phase := rest)];
    }
  }
}
