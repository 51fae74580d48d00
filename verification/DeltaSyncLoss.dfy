/** Each hypothesis of DeltaSync is needed: from every reachable state of the kind it excludes,
    some continuation ends drained without a row, whatever the other two say. Hence a row can
    still be lost, from any state, exactly when one of the three may be broken. */
module DeltaSyncLoss {
  import opened Common
  import opened DeltaSync

  ghost predicate Reaches(hs: set<Hypothesis>, s: State, t: State) {
    exists acts :: Path(hs, s, acts, t)
  }

  lemma {:induction false} PathAppend(hs: set<Hypothesis>, s: State, a1: seq<Action>, m: State, a2: seq<Action>, t: State)
    requires Path(hs, s, a1, m) && Path(hs, m, a2, t)
    ensures Path(hs, s, a1 + a2, t)
    decreases |a1|
  {
    if a1 == [] {
      assert a1 + a2 == a2;
    } else {
      PathAppend(hs, Apply(s, a1[0]), a1[1..], m, a2, t);
      assert (a1 + a2)[1..] == a1[1..] + a2;
    }
  }

  lemma ReachesSelf(hs: set<Hypothesis>, s: State)
    ensures Reaches(hs, s, s)
  {
    assert Path(hs, s, [], s);
  }

  lemma ReachesNext(hs: set<Hypothesis>, s: State, m: State, a: Action)
    requires Reaches(hs, s, m) && Enabled(m, a) && forall h :: h in hs ==> Meets(h, m, a)
    ensures Reaches(hs, s, Apply(m, a))
  {
    var acts :| Path(hs, s, acts, m);
    assert Path(hs, m, [a], Apply(m, a));
    PathAppend(hs, s, acts, m, [a], Apply(m, a));
  }

  /** Drained, yet wrong about a present row. */
  ghost predicate Lost(t: State, e: Entity) {
    Drained(t) && e in t.srv.rows && !Holds(t.view, t.srv.rows, e)
  }

  lemma {:induction false} SortedSelection(rows: Catalog, keep: set<Entity>) returns (page: seq<Change>)
    requires keep <= rows.Keys
    ensures forall c :: c in page <==> c.entity in keep && c == Of(rows, c.entity)
    ensures forall i, j :: 0 <= i < j < |page| ==> Before(At(page[i]), At(page[j]))
  {
    page := [];
    if keep != {} {
      var e :| e in keep;
      var rest := SortedSelection(rows, keep - {e});
      page := Insert(rest, Of(rows, e));
    }
  }

  lemma Trichotomy(a: Position, b: Position)
    requires a.entity != b.entity
    ensures Before(a, b) || Before(b, a)
  {
    assert Rank(a.entity.kind) == Rank(b.entity.kind) ==> a.entity.kind == b.entity.kind;
  }

  lemma {:induction false} Insert(rest: seq<Change>, c: Change) returns (page: seq<Change>)
    requires forall x :: x in rest ==> x.entity != c.entity
    requires forall i, j :: 0 <= i < j < |rest| ==> Before(At(rest[i]), At(rest[j]))
    ensures forall x :: x in page <==> x == c || x in rest
    ensures forall i, j :: 0 <= i < j < |page| ==> Before(At(page[i]), At(page[j]))
  {
    if rest == [] || Before(At(c), At(rest[0])) {
      page := [c] + rest;
    } else {
      assert rest == [rest[0]] + rest[1..];
      var tail := Insert(rest[1..], c);
      page := [rest[0]] + tail;
      Trichotomy(At(c), At(rest[0]));
      forall j | 1 <= j < |page| ensures Before(At(page[0]), At(page[j])) {
        assert page[j] in tail;
      }
    }
  }

  /** The single page holding everything past the cursor. */
  lemma WholePage(rows: Catalog, since: int, cursor: Option<Position>) returns (page: seq<Change>)
    ensures IsPage(rows, since, cursor, page, None)
  {
    var keep := set e | e in rows && Wanted(since, cursor, Of(rows, e));
    page := SortedSelection(rows, keep);
  }

  /** Finish a response: hydrate the page and apply it. Rows outside the page keep their
      place in the client's view. */
  lemma {:induction false} Finish(hs: set<Hypothesis>, s: State, m: State, e: Entity) returns (t: State)
    requires Reaches(hs, s, m) && m.round.Hydrating? && m.round.next.None?
    requires e !in m.round.received && forall c :: c in m.round.page ==> c.entity != e
    ensures Reaches(hs, s, t) && t.round.Idle? && t.srv == m.srv && t.since == m.round.version
    ensures (e in t.view <==> e in m.view) && (e in t.view ==> t.view[e] == m.view[e])
    decreases |m.round.page|
  {
    hide Path;
    if m.round.page == [] {
      t := Apply(m, Respond);
      ReachesNext(hs, s, m, Respond);
    } else {
      var n := Apply(m, Hydrate);
      ReachesNext(hs, s, m, Hydrate);
      assert m.round.page == [m.round.page[0]] + n.round.page;
      t := Finish(hs, s, n, e);
    }
  }

  /** Read the rest of the round in one page and finish it with no scan in sight. */
  lemma ReadToEnd(hs: set<Hypothesis>, s: State, m: State, e: Entity) returns (t: State)
    requires Reaches(hs, s, m) && m.round.Ready? && m.srv.scan.NoScan?
    requires CutPinned in hs ==> !m.round.cut
    requires e in m.srv.rows ==> !Wanted(m.since, m.round.cursor, Of(m.srv.rows, e))
    ensures Reaches(hs, s, t) && t.round.Idle? && t.srv == m.srv && t.since == m.srv.counter
    ensures (e in t.view <==> e in m.view) && (e in t.view ==> t.view[e] == m.view[e])
  {
    hide Path;
    ReachesNext(hs, s, m, ReadScanning);
    var m1 := Apply(m, ReadScanning);
    var page := WholePage(m.srv.rows, m.since, m.round.cursor);
    ReachesNext(hs, s, m1, Snapshot(page, None));
    var m2 := Apply(m1, Snapshot(page, None));
    ReachesNext(hs, s, m2, ReadScanningAgain);
    t := Finish(hs, s, Apply(m2, ReadScanningAgain), e);
  }

  /** From inside a scan that was not running at the first read, the scan writes e after
      the snapshot and ends before the second read. */
  lemma SnapshotInsideScan(hs: set<Hypothesis>, s: State, m: State, e: Entity) returns (t: State)
    requires hs == {AllocateApply, CutPinned}
    requires Reaches(hs, s, m) && m.round.FirstRead? && !m.round.scanning && !m.round.cut
    requires m.srv.scan == Running(m.srv.counter, false) && e !in m.srv.rows && e !in m.view
    ensures Reaches(hs, s, t) && t.round.Idle? && t.since == m.srv.counter && e !in t.view
    ensures t.srv.rows == m.srv.rows[e := Row(m.srv.counter, false, 0)]
  {
    hide Path;
    var page := WholePage(m.srv.rows, m.since, m.round.cursor);
    ReachesNext(hs, s, m, Snapshot(page, None));
    var m1 := Apply(m, Snapshot(page, None));
    var w := ScanWrite(e, Write(false, 0));
    ReachesNext(hs, s, m1, w);
    var m2 := Apply(m1, w);
    ReachesNext(hs, s, m2, ScanEnd(false));
    var m3 := Apply(m2, ScanEnd(false));
    ReachesNext(hs, s, m3, ReadScanningAgain);
    t := Finish(hs, s, Apply(m3, ReadScanningAgain), e);
  }

  /** A scan that starts and ends between the two reads can lose any row it creates. */
  lemma WholeScanCanLose(s: State, e: Entity)
    requires Inv(s) && s.round.FirstRead? && !s.round.scanning && !s.round.cut
    requires s.srv.scan.NoScan? && e !in s.srv.rows
    ensures exists t :: Reaches({AllocateApply, CutPinned}, s, t) && Lost(t, e)
  {
    hide Path;
    var hs := {AllocateApply, CutPinned};
    ReachesSelf(hs, s);
    ReachesNext(hs, s, s, ScanStart);
    var s1 := Apply(s, ScanStart);
    ReachesNext(hs, s, s1, ScanAllocate);
    assert e !in s.view;
    var t := SnapshotInsideScan(hs, s, Apply(s1, ScanAllocate), e);
    assert Lost(t, e);
  }

  /** A number taken ahead of its rows lets a client pass it before they are stamped. */
  lemma AllocateThenApplyCanLose(s: State, e: Entity)
    requires Inv(s) && s.round.Idle? && s.srv.scan.NoScan? && e !in s.srv.rows
    ensures exists t :: Reaches({WholeScan, CutPinned}, s, t) && Lost(t, e)
  {
    hide Path;
    var hs := {WholeScan, CutPinned};
    ReachesSelf(hs, s);
    ReachesNext(hs, s, s, ResolverAllocate);
    var s1 := Apply(s, ResolverAllocate);
    ReachesNext(hs, s, s1, PollBegin);
    var s2 := Apply(s1, PollBegin);
    var s3 := ReadToEnd(hs, s, s2, e);
    var w := ResolverApply(map[e := Write(false, 0)]);
    ReachesNext(hs, s, s3, w);
    assert e !in s.view;
    assert Lost(Apply(s3, w), e);
  }

  /** Once a page has ended inside the stamp of a running scan, the scan can still write a
      row that sorts below the cursor; finishing the round after the scan loses it. */
  lemma CutRoundCanLose(s: State)
    requires Inv(s) && s.round.Ready? && s.round.cursor.Some?
    requires s.srv.scan.Running? && !s.srv.scan.stale && s.round.cursor.value.stamp >= s.srv.scan.stamp
    ensures exists t, e :: Reaches({WholeScan, AllocateApply}, s, t) && Lost(t, e)
  {
    hide Path;
    var hs := {WholeScan, AllocateApply};
    var c := s.round.cursor.value;
    var e := Entity(c.entity.kind, c.entity.id - 1);
    var w := ScanWrite(e, Write(false, if e in s.view then s.view[e] + 1 else 0));
    ReachesSelf(hs, s);
    ReachesNext(hs, s, s, w);
    var s1 := Apply(s, w);
    ReachesNext(hs, s, s1, ScanEnd(false));
    var t := ReadToEnd(hs, s, Apply(s1, ScanEnd(false)), e);
    assert Lost(t, e);
  }

  const FIRST_TRACK := Entity(Track, 5)
  const SECOND_TRACK := Entity(Track, 9)

  lemma TwoTracksScanned()
    ensures Reaches(ALL, INIT, State(
              Server(map[FIRST_TRACK := Row(1, false, 1), SECOND_TRACK := Row(1, false, 1)], 1, Running(1, false), 1, None),
              map[], 0, Idle))
  {
    hide Path;
    ReachesSelf(ALL, INIT);
    ReachesNext(ALL, INIT, INIT, ScanStart);
    var s1 := Apply(INIT, ScanStart);
    ReachesNext(ALL, INIT, s1, ScanAllocate);
    var s2 := Apply(s1, ScanAllocate);
    ReachesNext(ALL, INIT, s2, ScanWrite(FIRST_TRACK, Write(false, 1)));
    var s3 := Apply(s2, ScanWrite(FIRST_TRACK, Write(false, 1)));
    ReachesNext(ALL, INIT, s3, ScanWrite(SECOND_TRACK, Write(false, 1)));
    var s4 := Apply(s3, ScanWrite(SECOND_TRACK, Write(false, 1)));
    assert s4.srv.rows == map[FIRST_TRACK := Row(1, false, 1), SECOND_TRACK := Row(1, false, 1)];
  }

  lemma FirstTrackPage()
    ensures IsPage(map[FIRST_TRACK := Row(1, false, 1), SECOND_TRACK := Row(1, false, 1)], 0, None,
                   [Change(1, FIRST_TRACK, false)], Some(Position(1, FIRST_TRACK)))
  {
    var rows := map[FIRST_TRACK := Row(1, false, 1), SECOND_TRACK := Row(1, false, 1)];
    assert forall e :: e in rows ==> e == FIRST_TRACK || e == SECOND_TRACK;
  }

  /** The cut round does arise: two rows of the running scan, one row per page. */
  lemma CutRoundArises()
    ensures exists s :: Reaches(ALL, INIT, s) && s.round.Ready? && s.round.cursor.Some? &&
                        s.srv.scan == Running(s.round.cursor.value.stamp, false)
  {
    hide Path;
    var page, next := [Change(1, FIRST_TRACK, false)], Some(Position(1, FIRST_TRACK));
    CutPageAnswered(page, next);
    hide IsPage;
    var s0 := MidScan();
    ReachesNext(ALL, INIT, s0.(round := Answered(None, true, true, 1, page, next, 1, true)), ReadScanningAgain);
    ReachesNext(ALL, INIT, s0.(round := Hydrating(None, true, page, next, 0, map[])), Hydrate);
    var s1 := s0.(round := Hydrating(None, true, [], next, 0, map[FIRST_TRACK := Some(1)]));
    assert page[1..] == [];
    ReachesNext(ALL, INIT, s1, Respond);
    var t := Apply(s1, Respond);
    assert Reaches(ALL, INIT, t) && t.round == Ready(next, true);
  }

  /** Two tracks written by a scan that still runs, and an idle client. */
  function MidScan(): State {
    State(Server(map[FIRST_TRACK := Row(1, false, 1), SECOND_TRACK := Row(1, false, 1)], 1, Running(1, false), 1, None), map[], 0, Idle)
  }

  lemma CutPageAnswered(page: seq<Change>, next: Option<Position>)
    requires page == [Change(1, FIRST_TRACK, false)] && next == Some(Position(1, FIRST_TRACK))
    ensures Reaches(ALL, INIT, MidScan().(round := Answered(None, true, true, 1, page, next, 1, true)))
  {
    hide Path;
    TwoTracksScanned();
    var s0 := MidScan();
    ReachesNext(ALL, INIT, s0, PollBegin);
    ReachesNext(ALL, INIT, s0.(round := Ready(None, false)), ReadScanning);
    FirstTrackPage();
    hide IsPage;
    ReachesNext(ALL, INIT, s0.(round := FirstRead(None, false, true, 1)), Snapshot(page, next));
  }

  // ---------------------------------------------------------------------
  // Exactly when a row can be lost

  lemma {:induction false} PathWeakens(hs: set<Hypothesis>, fewer: set<Hypothesis>, s: State, acts: seq<Action>, t: State)
    requires fewer <= hs && Path(hs, s, acts, t)
    ensures Path(fewer, s, acts, t)
    decreases |acts|
  {
    if acts != [] {
      PathWeakens(hs, fewer, Apply(s, acts[0]), acts[1..], t);
    }
  }

  /** First a stretch that meets every hypothesis, then one that meets some of them. */
  lemma ReachesThen(hs: set<Hypothesis>, s: State, m: State, t: State)
    requires hs <= ALL && Reaches(ALL, s, m) && Reaches(hs, m, t)
    ensures Reaches(hs, s, t)
  {
    var a1 :| Path(ALL, s, a1, m);
    var a2 :| Path(hs, m, a2, t);
    PathWeakens(ALL, hs, s, a1, m);
    PathAppend(hs, s, a1, m, a2, t);
  }

  lemma InvReached(s: State, t: State)
    requires Inv(s) && Reaches(ALL, s, t)
    ensures Inv(t)
  {
    var acts :| Path(ALL, s, acts, t);
    InvAlong(s, acts, t);
  }

  /** Whatever is going on, the client may give up its round and a scan may end. */
  lemma Settle(s: State) returns (m: State)
    requires Inv(s)
    ensures Reaches(ALL, s, m) && Inv(m) && m.round.Idle? && m.srv.scan.NoScan?
  {
    hide Path, Inv;
    ReachesSelf(ALL, s);
    m := s;
    if !m.round.Idle? {
      ReachesNext(ALL, s, m, Fail(true));
      m := Apply(m, Fail(true));
    }
    if !m.srv.scan.NoScan? {
      ReachesNext(ALL, s, m, ScanEnd(false));
      m := Apply(m, ScanEnd(false));
    }
    InvReached(s, m);
  }

  /** There is always a track id beyond all that are taken. */
  lemma {:induction false} FreshId(taken: set<Entity>) returns (id: int)
    ensures forall e :: e in taken ==> e.id < id
    decreases |taken|
  {
    id := 0;
    if taken != {} {
      var e :| e in taken;
      var rest := FreshId(taken - {e});
      id := Max(rest, e.id + 1);
    }
  }

  lemma {:induction false} HydrateAll(hs: set<Hypothesis>, s: State, m: State) returns (t: State)
    requires Reaches(hs, s, m) && m.round.Hydrating? && m.round.next.Some?
    ensures Reaches(hs, s, t) && t.srv == m.srv && t.round == Ready(m.round.next, m.round.cut)
    decreases |m.round.page|
  {
    hide Path;
    if m.round.page == [] {
      t := Apply(m, Respond);
      ReachesNext(hs, s, m, Respond);
    } else {
      var n := Apply(m, Hydrate);
      ReachesNext(hs, s, m, Hydrate);
      t := HydrateAll(hs, s, n);
    }
  }

  /** All rows of the feed but the last make a page whose cursor promises one more. */
  lemma AllButLast(rows: Catalog, since: int, full: seq<Change>, page: seq<Change>)
    requires |full| >= 2 && page == full[..|full| - 1]
    requires forall c :: c in full <==> c.entity in rows && c == Of(rows, c.entity) && Wanted(since, None, c)
    requires forall i, j :: 0 <= i < j < |full| ==> Before(At(full[i]), At(full[j]))
    ensures IsPage(rows, since, None, page, Some(At(page[|page| - 1])))
  {
    hide Before, Wanted;
    forall e | e in rows && Wanted(since, None, Of(rows, e))
      ensures Of(rows, e) in page || Before(At(page[|page| - 1]), At(Of(rows, e)))
    {
      assert Of(rows, e) in full;
      var i :| 0 <= i < |full| && full[i] == Of(rows, e);
      if i < |page| {
        assert page[i] == full[i];
      } else {
        assert page[|page| - 1] == full[|full| - 2];
      }
    }
    forall c | c in page
      ensures c in full
    {
    }
  }

  /** Of two changes with the highest number, the last but one of the feed has that number. */
  lemma LastButOne(full: seq<Change>, x: Change, y: Change)
    requires x in full && y in full && x != y && x.stamp == y.stamp
    requires forall i, j :: 0 <= i < j < |full| ==> Before(At(full[i]), At(full[j]))
    ensures |full| >= 2 && full[|full| - 2].stamp >= x.stamp
  {
    var i :| 0 <= i < |full| && full[i] == x;
    var j :| 0 <= j < |full| && full[j] == y;
    var low := if i < j then i else j;
    if low < |full| - 2 {
      assert Before(At(full[low]), At(full[|full| - 2]));
    }
  }

  /** A scan writes two new tracks and stays. */
  lemma TwoNewTracks(s: State) returns (m: State, x: Entity, y: Entity)
    requires Inv(s) && s.round.Idle? && s.srv.scan.NoScan?
    ensures Reaches(ALL, s, m) && m.round.Idle? && m.since == s.since && m.srv.scan == Running(m.srv.counter, false) && x != y
    ensures m.since < m.srv.counter
    ensures x in m.srv.rows && m.srv.rows[x].stamp == m.srv.counter && y in m.srv.rows && m.srv.rows[y].stamp == m.srv.counter
  {
    hide Path;
    var id := FreshId(s.srv.rows.Keys);
    x, y := Entity(Track, id), Entity(Track, id + 1);
    ReachesSelf(ALL, s);
    ReachesNext(ALL, s, s, ScanStart);
    var s1 := Apply(s, ScanStart);
    ReachesNext(ALL, s, s1, ScanAllocate);
    var s2 := Apply(s1, ScanAllocate);
    ReachesNext(ALL, s, s2, ScanWrite(x, Write(false, 0)));
    var s3 := Apply(s2, ScanWrite(x, Write(false, 0)));
    ReachesNext(ALL, s, s3, ScanWrite(y, Write(false, 0)));
    m := Apply(s3, ScanWrite(y, Write(false, 0)));
  }

  /** The client's next page may end inside that scan's stamp. */
  lemma ReachCut(s: State) returns (m: State)
    requires Inv(s) && s.round.Idle? && s.srv.scan.NoScan?
    ensures Reaches(ALL, s, m) && m.round.Ready? && m.round.cursor.Some? && m.srv.scan.Running? && !m.srv.scan.stale
    ensures m.round.cursor.value.stamp >= m.srv.scan.stamp
  {
    hide Path, Inv;
    var s1, x, y := TwoNewTracks(s);
    ReachesNext(ALL, s, s1, PollBegin);
    var s2 := Apply(s1, PollBegin);
    ReachesNext(ALL, s, s2, ReadScanning);
    var s3 := Apply(s2, ReadScanning);
    var page := CutPage(s3.srv.rows, s3.since, x, y);
    var next := Some(At(page[|page| - 1]));
    hide IsPage;
    ReachesNext(ALL, s, s3, Snapshot(page, next));
    var s4 := Apply(s3, Snapshot(page, next));
    ReachesNext(ALL, s, s4, ReadScanningAgain);
    m := HydrateAll(ALL, s, Apply(s4, ReadScanningAgain));
  }

  lemma CutPage(rows: Catalog, since: int, x: Entity, y: Entity) returns (page: seq<Change>)
    requires x in rows && y in rows && x != y && rows[x].stamp == rows[y].stamp > since
    ensures page != [] && page[|page| - 1].stamp >= rows[x].stamp && IsPage(rows, since, None, page, Some(At(page[|page| - 1])))
  {
    var full := SortedSelection(rows, set e | e in rows && Wanted(since, None, Of(rows, e)));
    LastButOne(full, Of(rows, x), Of(rows, y));
    page := full[..|full| - 1];
    AllButLast(rows, since, full, page);
  }

  /** Whichever hypothesis may be broken, every state can still go on to lose a row. */
  lemma LosesWithout(h: Hypothesis, s: State)
    requires Inv(s)
    ensures exists t, e :: Reaches(ALL - {h}, s, t) && Lost(t, e)
  {
    hide Path, Inv, Lost;
    var m := Settle(s);
    var id := FreshId(m.srv.rows.Keys);
    var e := Entity(Track, id);
    match h {
      case WholeScan =>
        assert ALL - {h} == {AllocateApply, CutPinned};
        ReachesNext(ALL, s, m, PollBegin);
        ReachesNext(ALL, s, Apply(m, PollBegin), ReadScanning);
        var n := Apply(Apply(m, PollBegin), ReadScanning);
        InvReached(s, n);
        WholeScanCanLose(n, e);
        var t :| Reaches({AllocateApply, CutPinned}, n, t) && Lost(t, e);
        ReachesThen(ALL - {h}, s, n, t);
      case AllocateApply =>
        assert ALL - {h} == {WholeScan, CutPinned};
        AllocateThenApplyCanLose(m, e);
        var t :| Reaches({WholeScan, CutPinned}, m, t) && Lost(t, e);
        ReachesThen(ALL - {h}, s, m, t);
      case CutPinned =>
        assert ALL - {h} == {WholeScan, AllocateApply};
        var n := ReachCut(m);
        InvReached(m, n);
        CutRoundCanLose(n);
        var t, x :| Reaches({WholeScan, AllocateApply}, n, t) && Lost(t, x);
        ReachesThen(ALL - {h}, m, n, t);
        ReachesThen(ALL - {h}, s, m, t);
    }
  }

  lemma ReachesFewer(hs: set<Hypothesis>, fewer: set<Hypothesis>, s: State, t: State)
    requires fewer <= hs && Reaches(hs, s, t)
    ensures Reaches(fewer, s, t)
  {
    var acts :| Path(hs, s, acts, t);
    PathWeakens(hs, fewer, s, acts, t);
  }

  lemma NeverLost(t: State, e: Entity)
    requires Inv(t)
    ensures !Lost(t, e)
  {
  }

  /** The exact condition, from every state a good run reaches: some continuation that is held to
      the hypotheses in `hs` ends drained without a present row if and only if `hs` leaves one of
      the three out. */
  lemma CanLoseIff(before: seq<Action>, s: State, hs: set<Hypothesis>)
    requires Path(ALL, INIT, before, s)
    ensures (exists t, e :: Reaches(hs, s, t) && Lost(t, e)) <==> exists h :: h !in hs
  {
    assert Inv(INIT);
    InvAlong(INIT, before, s);
    hide Path, Inv;
    if h :| h !in hs {
      LosesWithout(h, s);
      var t, e :| Reaches(ALL - {h}, s, t) && Lost(t, e);
      forall g | g in hs
        ensures g in ALL - {h}
      {
        assert g == WholeScan || g == AllocateApply || g == CutPinned;
      }
      ReachesFewer(ALL - {h}, hs, s, t);
    }
    if t, e :| Reaches(hs, s, t) && Lost(t, e) {
      if forall h :: h in hs {
        ReachesFewer(hs, ALL, s, t);
        InvReached(s, t);
        NeverLost(t, e);
      }
    }
  }
}
