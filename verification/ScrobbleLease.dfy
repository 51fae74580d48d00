/** The lease on a scrobble (ClaimPendingLastfmPlays, FinishLastfmPlay, internal/store/lastfm.go):
    workers claim a play session, may crash, may be superseded after five minutes, and finish
    with a result or with a backoff. Times are in seconds; each worker uses the clock reading
    it took itself. Play sessions are independent rows, so a run follows one of them. */
module ScrobbleLease {
  import opened Common

  datatype Relay = Pending | Claimed | Terminal

  datatype Session = Session(relay: Relay, claim: Option<nat>, claimedAt: int, attempts: nat, next: Option<int>)

  const LEASE := 300

  /** 2^min(k, 6) minutes. */
  function Backoff(attempts: nat): int {
    60 * Power(Min(attempts, 6))
  }

  /** The condition both statements of ClaimPendingLastfmPlays put on the row. */
  predicate Claimable(s: Session, at: int) {
    || (s.relay == Pending && (s.next.None? || s.next.value <= at))
    || (s.relay == Claimed && s.claimedAt < at - LEASE)
  }

  function ClaimedBy(s: Session, id: nat, at: int): Session {
    if Claimable(s, at) then s.(relay := Claimed, claim := Some(id), claimedAt := at) else s
  }

  /** The update of FinishLastfmPlay, with the attempt count read before it. */
  function Finished(s: Session, id: nat, at: int, read: nat, again: bool): Session {
    if s.claim != Some(id) then s
    else
      s.(relay := if again then Pending else Terminal, claim := None, attempts := s.attempts + 1,
         next := if again then Some(at + Backoff(read)) else None)
  }

  // ---------------------------------------------------------------------
  // Runs

  /** `log` records the claims that took effect and the finishes that took effect. */
  datatype Entry = Claim(id: nat, at: int) | Finish(id: nat, at: int, again: bool, attempts: nat)

  /** `used` holds the claim ids handed out, `seen` what each finishing worker has read: its
      clock and the attempt count. */
  datatype State = State(session: Session, used: set<nat>, seen: map<nat, (int, nat)>, log: seq<Entry>)

  /** Finishing takes two statements, and a worker may crash between any two of its own. */
  datatype Action =
    | TryClaim(id: nat, at: int)
    | ReadAttempts(id: nat, at: int)
    | FinishWith(id: nat, again: bool)

  predicate Enabled(s: State, a: Action) {
    match a
    case TryClaim(id, _) => id !in s.used
    case ReadAttempts(id, _) => id in s.used
    case FinishWith(id, _) => id in s.seen
  }

  function Apply(s: State, a: Action): State
    requires Enabled(s, a)
  {
    match a
    case TryClaim(id, at) =>
      var n := s.(used := s.used + {id}, session := ClaimedBy(s.session, id, at));
      if Claimable(s.session, at) then n.(log := s.log + [Claim(id, at)]) else n
    case ReadAttempts(id, at) => s.(seen := s.seen[id := (at, s.session.attempts)])
    case FinishWith(id, again) =>
      var (at, read) := s.seen[id];
      var n := s.(session := Finished(s.session, id, at, read, again));
      if s.session.claim == Some(id) then n.(log := s.log + [Finish(id, at, again, s.session.attempts)]) else n
  }

  predicate Initial(s: State) {
    s == State(Session(Pending, None, 0, 0, None), {}, map[], [])
  }

  ghost predicate Run(ss: seq<State>, acts: seq<Action>) {
    && |ss| == |acts| + 1 && Initial(ss[0])
    && (forall i :: 0 <= i < |acts| ==> Enabled(ss[i], acts[i]) && ss[i + 1] == Apply(ss[i], acts[i]))
  }

  // ---------------------------------------------------------------------
  // Invariants

  predicate RowInv(s: State) {
    && (s.session.claim.Some? <==> s.session.relay == Claimed)
    && (s.session.claim.Some? ==> s.session.claim.value in s.used)
    && (forall id :: id in s.seen ==> id in s.used)
    && (forall id :: id in s.seen && s.session.claim == Some(id) ==> s.seen[id].1 == s.session.attempts)
  }

  function Finishes(log: seq<Entry>): nat {
    if log == [] then 0 else Finishes(log[..|log| - 1]) + if log[|log| - 1].Finish? then 1 else 0
  }

  /** The log ends with what the row says: its claim, or its last finish. */
  predicate LogInv(s: State) {
    && s.session.attempts == Finishes(s.log)
    && (s.session.relay == Claimed ==>
          s.session.claim.Some? && s.log != [] && s.log[|s.log| - 1] == Claim(s.session.claim.value, s.session.claimedAt))
    && (s.session.relay == Pending && s.log != [] ==>
          var e := s.log[|s.log| - 1];
          e.Finish? && e.again && s.session.next == Some(e.at + Backoff(e.attempts)))
    && (s.session.relay == Terminal ==> s.log != [] && s.log[|s.log| - 1].Finish? && !s.log[|s.log| - 1].again)
  }

  /** What separates two entries that follow each other in the log: a claim comes out of a
      backoff or after a lapsed lease, and a finish belongs to the claim before it. */
  predicate Separated(e: Entry, f: Entry, before: nat) {
    match f
    case Claim(_, at) => if e.Finish? then e.again && at >= e.at + Backoff(e.attempts) else at > e.at + LEASE
    case Finish(id, _, _, attempts) => e.Claim? && e.id == id && attempts == before
  }

  predicate Spaced(log: seq<Entry>) {
    forall i :: 0 < i < |log| ==> Separated(log[i - 1], log[i], Finishes(log[..i]))
  }

  predicate Inv(s: State) {
    RowInv(s) && LogInv(s) && Spaced(s.log)
  }

  lemma {:induction false} LogGrows(log: seq<Entry>, e: Entry)
    requires Spaced(log) && (log != [] ==> Separated(log[|log| - 1], e, Finishes(log)))
    ensures Spaced(log + [e]) && Finishes(log + [e]) == Finishes(log) + if e.Finish? then 1 else 0
  {
    var longer := log + [e];
    assert longer[..|log|] == log;
    forall i | 0 < i < |longer|
      ensures Separated(longer[i - 1], longer[i], Finishes(longer[..i]))
    {
      if i < |log| {
        assert longer[..i] == log[..i];
        assert Separated(log[i - 1], log[i], Finishes(log[..i]));
      }
    }
  }

  lemma {:induction false} LogInvStep(s: State, a: Action)
    requires Inv(s) && Enabled(s, a)
    ensures LogInv(Apply(s, a)) && Spaced(Apply(s, a).log)
  {
    hide Backoff, Spaced, Separated;
    if a.TryClaim? && Claimable(s.session, a.at) {
      LogGrows(s.log, Claim(a.id, a.at));
    } else if a.FinishWith? && s.session.claim == Some(a.id) {
      LogGrows(s.log, Finish(a.id, s.seen[a.id].0, a.again, s.session.attempts));
    }
  }

  lemma {:induction false} InvAlong(ss: seq<State>, acts: seq<Action>, k: nat)
    requires Run(ss, acts) && k <= |acts|
    ensures Inv(ss[k])
  {
    if k > 0 {
      InvAlong(ss, acts, k - 1);
      hide RowInv, LogInv, Spaced, Apply, Enabled;
      LogInvStep(ss[k - 1], acts[k - 1]);
    }
  }

  /** Two claims of one session that follow each other, with at most a finish in between, are
      separated by that finish plus its backoff, or by more than five minutes. The backoff is
      2^min(k, 6) minutes, where k counts the finishes before. */
  lemma {:induction false} ClaimsAreSeparated(ss: seq<State>, acts: seq<Action>, k: nat, i: nat, j: nat)
    requires Run(ss, acts) && k <= |acts| && i < j < |ss[k].log|
    requires ss[k].log[i].Claim? && ss[k].log[j].Claim? && forall l :: i < l < j ==> !ss[k].log[l].Claim?
    ensures var log := ss[k].log;
            || (j == i + 1 && log[j].at > log[i].at + 300)
            || (j == i + 2 && log[i + 1].Finish? && log[i + 1].id == log[i].id && log[i + 1].again
                && log[i + 1].attempts == Finishes(log[..i + 1])
                && log[j].at >= log[i + 1].at + 60 * Power(if log[i + 1].attempts < 6 then log[i + 1].attempts else 6))
  {
    InvAlong(ss, acts, k);
    hide Run, RowInv, LogInv;
    var log := ss[k].log;
    assert Separated(log[i], log[i + 1], Finishes(log[..i + 1]));
    if j > i + 1 {
      assert Separated(log[i + 1], log[i + 2], Finishes(log[..i + 2]));
    }
  }

  /** Terminal is absorbing: no claim, no late finish and no crash changes the row again. */
  lemma {:induction false} TerminalIsAbsorbing(ss: seq<State>, acts: seq<Action>, i: nat, j: nat)
    requires Run(ss, acts) && i <= j <= |acts| && ss[i].session.relay == Terminal
    ensures ss[j].session == ss[i].session
  {
    if i < j {
      TerminalIsAbsorbing(ss, acts, i, j - 1);
      InvAlong(ss, acts, j - 1);
      assert Enabled(ss[j - 1], acts[j - 1]) && ss[j] == Apply(ss[j - 1], acts[j - 1]) by {
        hide Enabled, Apply;
      }
      hide Run, LogInv, Spaced, Apply, Enabled, RowInv;
    }
  }

  lemma {:induction false} LostStaysLost(ss: seq<State>, acts: seq<Action>, i: nat, j: nat, id: nat)
    requires Run(ss, acts) && i <= j <= |acts| && id in ss[i].used && ss[i].session.claim != Some(id)
    ensures id in ss[j].used && ss[j].session.claim != Some(id)
  {
    if i < j {
      LostStaysLost(ss, acts, i, j - 1, id);
      assert Enabled(ss[j - 1], acts[j - 1]) && ss[j] == Apply(ss[j - 1], acts[j - 1]) by {
        hide Enabled, Apply;
      }
      hide Run, Apply, Enabled;
    }
  }

  /** A superseded claimant's finish changes nothing: once another claim took effect after its
      own, whatever it writes later leaves row and log alone. */
  lemma {:induction false} SupersededFinishIsVoid(ss: seq<State>, acts: seq<Action>, i: nat, j: nat, id: nat)
    requires Run(ss, acts) && i < j < |acts| && id in ss[i].used
    requires acts[i].TryClaim? && ss[i + 1].session.claim == Some(acts[i].id)
    requires acts[j].FinishWith? && acts[j].id == id
    ensures ss[j + 1] == ss[j]
  {
    assert Enabled(ss[i], acts[i]) && ss[i + 1] == Apply(ss[i], acts[i]);
    LostStaysLost(ss, acts, i + 1, j, id);
    assert Enabled(ss[j], acts[j]) && ss[j + 1] == Apply(ss[j], acts[j]);
    hide Run, Backoff;
  }

  // ---------------------------------------------------------------------
  // The table

  class Sessions {
    var rows: map<int, Session>

    constructor ()
      ensures rows == map[]
    {
      rows := map[];
    }

    /** IngestPlaybackEventsDetailed inserts a session once and leaves an existing one alone. */
    method Insert(sid: int)
      modifies this
      ensures rows == if sid in old(rows) then old(rows) else old(rows)[sid := Session(Pending, None, 0, 0, None)]
    {
      if sid !in rows {
        rows := rows[sid := Session(Pending, None, 0, 0, None)];
      }
    }

    /** ClaimPendingLastfmPlays, after its select: the ids it returned are claimed one by one,
        each only if the row still qualifies. */
    method ClaimPending(ids: seq<int>, id: nat, at: int) returns (claimed: seq<int>)
      requires NoRepeats(ids)
      modifies this
      ensures rows.Keys == old(rows).Keys
      ensures forall sid :: sid in rows ==> rows[sid] == if sid in ids then ClaimedBy(old(rows)[sid], id, at) else old(rows)[sid]
      ensures forall sid :: sid in claimed <==> sid in ids && sid in old(rows) && Claimable(old(rows)[sid], at)
      ensures forall sid :: sid in claimed <==>
                sid in ids && sid in old(rows) && var s := old(rows)[sid];
                if s.relay == Pending then s.next == None || s.next.value <= at else s.relay == Claimed && at - s.claimedAt > 300
      ensures forall sid :: sid in rows ==>
                rows[sid] == if sid in claimed then old(rows)[sid].(relay := Claimed, claim := Some(id), claimedAt := at) else old(rows)[sid]
    {
      claimed := [];
      var i := 0;
      while i < |ids|
        invariant 0 <= i <= |ids| && rows.Keys == old(rows).Keys
        invariant forall sid :: sid in rows ==> rows[sid] == if sid in ids[..i] then ClaimedBy(old(rows)[sid], id, at) else old(rows)[sid]
        invariant forall sid :: sid in claimed <==> sid in ids[..i] && sid in old(rows) && Claimable(old(rows)[sid], at)
      {
        var sid := ids[i];
        assert sid !in ids[..i];
        if sid in rows && Claimable(rows[sid], at) {
          rows := rows[sid := rows[sid].(relay := Claimed, claim := Some(id), claimedAt := at)];
          claimed := claimed + [sid];
        }
        i := i + 1;
      }
      assert ids[..|ids|] == ids;
    }

    /** FinishLastfmPlay, read and update together. */
    method FinishPlay(sid: int, id: nat, at: int, again: bool)
      modifies this
      ensures rows.Keys == old(rows).Keys
      ensures forall k :: k in rows ==>
                rows[k] == if k == sid then Finished(old(rows)[k], id, at, old(rows)[k].attempts, again) else old(rows)[k]
      ensures sid in old(rows) && old(rows)[sid].claim == Some(id) ==>
                var s := old(rows)[sid];
                && rows[sid].claim == None && rows[sid].claimedAt == s.claimedAt && rows[sid].attempts == s.attempts + 1
                && (if again then rows[sid].relay == Pending && rows[sid].next == Some(at + 60 * Power(if s.attempts < 6 then s.attempts else 6))
                    else rows[sid].relay == Terminal && rows[sid].next == None)
      ensures sid !in old(rows) || old(rows)[sid].claim != Some(id) ==> rows == old(rows)
    {
      if sid !in rows || rows[sid].claim != Some(id) {
        return;
      }
      var row := rows[sid];
      var next: Option<int> := None;
      if again {
        var minutes := Shift(Min(row.attempts, 6));
        next := Some(at + 60 * minutes);
      }
      rows := rows[sid := row.(relay := if again then Pending else Terminal, claim := None, attempts := row.attempts + 1, next := next)];
    }
  }
}
