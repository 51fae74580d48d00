/** The catalog delta protocol: internal/server/library_changes.go,
    internal/store/library_changes_snapshot.go, the ...AtNextSequence writers, scans and
    source switches, interleaved with one polling client.

    Every row carries the number of the write that last changed it. A client asks for the
    rows above the version it holds, page by page, and adopts the version of the last page. */
module DeltaSync {
  import opened Common
  import Keyset

  /** The kinds in the order of their names as text, which is how the feed sorts them. */
  datatype Kind = Album | Artist | Track

  datatype Entity = Entity(kind: Kind, id: int)

  datatype Row = Row(stamp: int, missing: bool, content: int)

  type Catalog = map<Entity, Row>

  datatype Change = Change(stamp: int, entity: Entity, missing: bool)

  /** Keyset cursor: the sort key of the last row of a page. */
  datatype Position = Position(stamp: int, entity: Entity)

  datatype Write = Write(missing: bool, content: int)

  function Rank(k: Kind): int {
    match k case Album => 0 case Artist => 1 case Track => 2
  }

  /** (change_seq, kind, id) ascending. */
  predicate Before(a: Position, b: Position) {
    a.stamp < b.stamp ||
    (a.stamp == b.stamp &&
     (Rank(a.entity.kind) < Rank(b.entity.kind) ||
      (a.entity.kind == b.entity.kind && a.entity.id < b.entity.id)))
  }

  function At(c: Change): Position {
    Position(c.stamp, c.entity)
  }

  function Of(rows: Catalog, e: Entity): Change
    requires e in rows
  {
    Change(rows[e].stamp, e, rows[e].missing)
  }

  predicate PastCursor(cursor: Option<Position>, p: Position) {
    cursor.None? || Before(cursor.value, p)
  }

  /** Rows a request with this version and cursor selects. */
  predicate Wanted(since: int, cursor: Option<Position>, c: Change) {
    c.stamp > since && PastCursor(cursor, At(c))
  }

  // ---------------------------------------------------------------------
  // The page query

  /** `table` is the catalog in feed order. */
  ghost predicate Lists(table: seq<Change>, rows: Catalog) {
    && (forall i, j :: 0 <= i < j < |table| ==> Before(At(table[i]), At(table[j])))
    && (forall i :: 0 <= i < |table| ==> table[i].entity in rows && table[i] == Of(rows, table[i].entity))
    && (forall e :: e in rows ==> Of(rows, e) in table)
  }

  /** What one page of the feed guarantees about the snapshot it was read from. */
  ghost predicate IsPage(rows: Catalog, since: int, cursor: Option<Position>, page: seq<Change>, next: Option<Position>) {
    && (forall c :: c in page ==> c.entity in rows && c == Of(rows, c.entity) && Wanted(since, cursor, c))
    && (forall e :: e in rows && Wanted(since, cursor, Of(rows, e)) ==>
          Of(rows, e) in page || (next.Some? && Before(next.value, At(Of(rows, e)))))
    && (next.Some? ==> page != [] && next.value == At(page[|page| - 1]))
    && (forall i, j :: 0 <= i < j < |page| ==> Before(At(page[i]), At(page[j])))
  }

  lemma {:induction false} MatchingIsSubsequence(table: seq<Change>, where: Change -> bool)
    requires forall i, j :: 0 <= i < j < |table| ==> Before(At(table[i]), At(table[j]))
    ensures var m := Keyset.Matching(table, where);
            (forall c :: c in m <==> c in table && where(c)) &&
            (forall i, j :: 0 <= i < j < |m| ==> Before(At(m[i]), At(m[j])))
  {
    if table != [] {
      MatchingIsSubsequence(table[1..], where);
      assert table == [table[0]] + table[1..];
      assert forall c :: c in table[1..] ==> Before(At(table[0]), At(c));
    }
  }

  /** A prefix of the wanted rows, with a cursor at its end when there are more, is a page. */
  lemma {:induction false} PrefixIsPage(table: seq<Change>, rows: Catalog, since: int, cursor: Option<Position>, m: seq<Change>,
                                        page: seq<Change>, next: Option<Position>)
    requires Lists(table, rows) && m == Keyset.Matching(table, c => Wanted(since, cursor, c))
    requires |page| <= |m| && page == m[..|page|]
    requires if |page| == |m| then next.None? else page != [] && next == Some(At(page[|page| - 1]))
    ensures IsPage(rows, since, cursor, page, next)
  {
    MatchingIsSubsequence(table, c => Wanted(since, cursor, c));
    hide Keyset.Matching, Before, Wanted, At, IsPage;
    assert forall c :: c in m <==> c in table && Wanted(since, cursor, c);
    WantedPrefix(table, rows, since, cursor, m, page, next);
  }

  /** The prefix of the wanted rows is a page. */
  lemma {:induction false} WantedPrefix(table: seq<Change>, rows: Catalog, since: int, cursor: Option<Position>, m: seq<Change>,
                                        page: seq<Change>, next: Option<Position>)
    requires Lists(table, rows) && forall c :: c in m <==> c in table && Wanted(since, cursor, c)
    requires forall i, j :: 0 <= i < j < |m| ==> Before(At(m[i]), At(m[j]))
    requires |page| <= |m| && page == m[..|page|]
    requires if |page| == |m| then next.None? else page != [] && next == Some(At(page[|page| - 1]))
    ensures IsPage(rows, since, cursor, page, next)
  {
    hide Before, Wanted, At;
    forall c | c in page
      ensures c.entity in rows && c == Of(rows, c.entity) && Wanted(since, cursor, c)
    {
      assert c in m;
    }
    forall e | e in rows && Wanted(since, cursor, Of(rows, e))
      ensures Of(rows, e) in page || (next.Some? && Before(next.value, At(Of(rows, e))))
    {
      assert Of(rows, e) in m;
      var i :| 0 <= i < |m| && m[i] == Of(rows, e);
      if i < |page| {
        assert page[i] == m[i];
      } else {
        assert page[|page| - 1] == m[|page| - 1];
      }
    }
  }

  /** changesSinceQuery: rows appended in order, one extra row read to learn whether to
      hand out a cursor. */
  method ChangesSinceQuery(table: seq<Change>, ghost rows: Catalog, since: int, cursor: Option<Position>,
                           limit: nat) returns (page: seq<Change>, next: Option<Position>)
    requires limit >= 1 && Lists(table, rows)
    ensures IsPage(rows, since, cursor, page, next)
    ensures |page| <= limit && (next.Some? ==> |page| == limit)
  {
    var where := (c: Change) => Wanted(since, cursor, c);
    var more;
    page, more := Keyset.ReadPage(table, where, limit);
    next := None;
    if more {
      next := Some(At(page[limit - 1]));
    }
    PrefixIsPage(table, rows, since, cursor, Keyset.Matching(table, where), page, next);
  }

  /** Feed order in columns: by number, then albums before artists before tracks, then by id. */
  predicate Sooner(a: Position, b: Position) {
    if a.stamp != b.stamp then a.stamp < b.stamp
    else if a.entity.kind == b.entity.kind then a.entity.id < b.entity.id
    else a.entity.kind == Album || b.entity.kind == Track
  }

  lemma BeforeIsSooner(a: Position, b: Position)
    ensures Before(a, b) <==> Sooner(a, b)
  {
  }

  /** A page in columns: rows as they are, above the version and past the cursor, in feed order;
      no such row up to the last one of the page is missing from it, and without a next cursor
      none at all. */
  lemma {:induction false} PageInRows(rows: Catalog, since: int, cursor: Option<Position>, page: seq<Change>, next: Option<Position>)
    requires IsPage(rows, since, cursor, page, next)
    ensures forall c :: c in page ==>
              && c.entity in rows && c.stamp == rows[c.entity].stamp > since && c.missing == rows[c.entity].missing
              && (cursor != None ==> Sooner(cursor.value, Position(c.stamp, c.entity)))
    ensures forall i, j :: 0 <= i < j < |page| ==>
              Sooner(Position(page[i].stamp, page[i].entity), Position(page[j].stamp, page[j].entity))
    ensures next != None ==> page != [] && next.value == Position(page[|page| - 1].stamp, page[|page| - 1].entity)
    ensures forall e :: e in rows && rows[e].stamp > since && (cursor == None || Sooner(cursor.value, Position(rows[e].stamp, e))) ==>
              || Change(rows[e].stamp, e, rows[e].missing) in page
              || (next != None && Sooner(next.value, Position(rows[e].stamp, e)))
  {
    forall a, b
      ensures Before(a, b) <==> Sooner(a, b)
    {
      BeforeIsSooner(a, b);
    }
    hide Before, Sooner;
  }

  predicate FeedAfter(c: Change, x: Change) {
    Before(At(c), At(x))
  }

  /** On a fixed catalog, following the feed's cursors from the start visits every row
      once, in feed order, and stops. */
  lemma {:induction false} FeedPaging(table: seq<Change>, rows: Catalog, limit: nat, pages: nat)
    requires limit >= 1 && Lists(table, rows)
    ensures var r := Keyset.Drain(table, FeedAfter, limit, None, pages);
            (r.1 <==> pages >= 1 && Keyset.Reach(limit, pages) >= |table|) && (r.1 ==> r.0 == table)
  {
    forall i, j | 0 <= i < |table| && 0 <= j < |table|
      ensures FeedAfter(table[i], table[j]) <==> i < j
    {
      if j < i { assert Before(At(table[j]), At(table[i])); }
    }
    Keyset.PagingIsExact(table, FeedAfter, limit, pages);
  }

  // ---------------------------------------------------------------------
  // The protocol

  /** `stale`: the source was switched under the running job, which may not write again. */
  datatype Scan = NoScan | Starting(stale: bool) | Running(stamp: int, stale: bool)

  /** `promised` is the number the MusicBrainz resolver took ahead of its apply. */
  datatype Server = Server(rows: Catalog, counter: int, scan: Scan, scansStarted: nat, promised: Option<int>)

  /** Where the client is inside one round of requests. `cut` records that some page of the
      round ended inside the stamp of a scan that was still running. */
  datatype Round =
    | Idle
    | Ready(cursor: Option<Position>, cut: bool)
    | FirstRead(cursor: Option<Position>, cut: bool, scanning: bool, started: nat)
    | Answered(cursor: Option<Position>, cut: bool, scanning: bool, started: nat,
               page: seq<Change>, next: Option<Position>, version: int, duringScan: bool)
    | Hydrating(cursor: Option<Position>, cut: bool,
                page: seq<Change>, next: Option<Position>, version: int, received: map<Entity, Option<int>>)

  datatype State = State(srv: Server, view: map<Entity, int>, since: int, round: Round)

  datatype Action =
    | AtNextWrite(writes: map<Entity, Write>)
    | SourceSwitch(writes: map<Entity, Write>)
    | ScanStart
    | ScanAllocate
    | ScanWrite(e: Entity, write: Write)
    | ScanEnd(restart: bool)
    | ResolverAllocate
    | ResolverApply(writes: map<Entity, Write>)
    | PollBegin
    | ReadScanning
    | Snapshot(page: seq<Change>, next: Option<Position>)
    | ReadScanningAgain
    | Hydrate
    | Respond
    | Fail(abandon: bool)

  function Stamped(rows: Catalog, writes: map<Entity, Write>, number: int): (r: Catalog) {
    rows + map e | e in writes :: Row(number, writes[e].missing, writes[e].content)
  }

  /** stableChangesVersion: while a scan is under way the client keeps its version. */
  function StableVersion(since: int, version: int, scanning: bool): int {
    if scanning then since else version
  }

  /** Status().Scanning. */
  predicate Scanning(s: State) {
    !s.srv.scan.NoScan?
  }

  ghost predicate Enabled(s: State, a: Action) {
    match a
    // The library identity lock is held by a running scan and by every sequence writer.
    case AtNextWrite(_) => !s.srv.scan.Running?
    case SourceSwitch(_) => true
    case ScanStart => s.srv.scan.NoScan?
    case ScanAllocate => s.srv.scan.Starting?
    case ScanWrite(_, _) => s.srv.scan.Running? && !s.srv.scan.stale
    case ScanEnd(_) => !s.srv.scan.NoScan?
    case ResolverAllocate => s.srv.promised.None?
    case ResolverApply(_) => s.srv.promised.Some? && !s.srv.scan.Running?
    case PollBegin => s.round.Idle?
    case ReadScanning => s.round.Ready?
    case Snapshot(page, next) =>
      s.round.FirstRead? && IsPage(s.srv.rows, s.since, s.round.cursor, page, next)
    case ReadScanningAgain => s.round.Answered?
    case Hydrate => s.round.Hydrating? && s.round.page != []
    case Respond => s.round.Hydrating? && s.round.page == []
    case Fail(_) => !s.round.Idle?
  }

  /** One hydrated change: a missing row is reported as removed, a present one is read from
      the current table, and a row that vanished since the snapshot is left out. */
  function Received(rows: Catalog, c: Change, received: map<Entity, Option<int>>): map<Entity, Option<int>> {
    if c.missing then received[c.entity := None]
    else if c.entity in rows && !rows[c.entity].missing then received[c.entity := Some(rows[c.entity].content)]
    else received
  }

  /** The client applies removals and upserts of one response. */
  function Merge(view: map<Entity, int>, received: map<Entity, Option<int>>): map<Entity, int> {
    map e | e in view.Keys + received.Keys && (e in received ==> received[e].Some?) ::
      if e in received then received[e].value else view[e]
  }

  predicate CutByScan(scan: Scan, next: Option<Position>) {
    scan.Running? && !scan.stale && next.Some? && next.value.stamp >= scan.stamp
  }

  function Apply(s: State, a: Action): State
    requires Enabled(s, a)
  {
    var srv := s.srv;
    match a
    case AtNextWrite(writes) =>
      s.(srv := srv.(counter := srv.counter + 1, rows := Stamped(srv.rows, writes, srv.counter + 1)))
    case SourceSwitch(writes) =>
      s.(srv := srv.(counter := srv.counter + 1, rows := Stamped(srv.rows, writes, srv.counter + 1),
                     scan := if srv.scan.NoScan? then NoScan else srv.scan.(stale := true)))
    case ScanStart => s.(srv := srv.(scan := Starting(false), scansStarted := srv.scansStarted + 1))
    case ScanAllocate =>
      s.(srv := srv.(counter := srv.counter + 1, scan := Running(srv.counter + 1, srv.scan.stale)))
    case ScanWrite(e, w) => s.(srv := srv.(rows := Stamped(srv.rows, map[e := w], srv.scan.stamp)))
    case ScanEnd(restart) =>
      if restart then s.(srv := srv.(scan := Starting(false), scansStarted := srv.scansStarted + 1))
      else s.(srv := srv.(scan := NoScan))
    case ResolverAllocate => s.(srv := srv.(counter := srv.counter + 1, promised := Some(srv.counter + 1)))
    case ResolverApply(writes) =>
      s.(srv := srv.(rows := Stamped(srv.rows, writes, srv.promised.value), promised := None))
    case PollBegin => s.(round := Ready(None, false))
    case ReadScanning => s.(round := FirstRead(s.round.cursor, s.round.cut, Scanning(s), srv.scansStarted))
    case Snapshot(page, next) =>
      s.(round := Answered(s.round.cursor, s.round.cut || CutByScan(srv.scan, next), s.round.scanning, s.round.started,
                           page, next, srv.counter, Scanning(s)))
    case ReadScanningAgain =>
      s.(round := Hydrating(s.round.cursor, s.round.cut, s.round.page, s.round.next,
                            StableVersion(s.since, s.round.version, s.round.scanning || Scanning(s)), map[]))
    case Hydrate =>
      s.(round := s.round.(page := s.round.page[1..],
                           received := Received(srv.rows, s.round.page[0], s.round.received)))
    case Respond =>
      var view := Merge(s.view, s.round.received);
      if s.round.next.Some? then s.(view := view, round := Ready(s.round.next, s.round.cut))
      else s.(view := view, since := s.round.version, round := Idle)
    case Fail(abandon) =>
      s.(round := if abandon then Idle else Ready(s.round.cursor, s.round.cut))
  }

  /** What every step does to the rows and the counter. */
  lemma {:induction false} StepsInRows(s: State, a: Action)
    requires Enabled(s, a)
    ensures a.AtNextWrite? || a.SourceSwitch? ==>
              Apply(s, a).srv.counter == s.srv.counter + 1 && Writes(s.srv.rows, a.writes, s.srv.counter + 1, Apply(s, a).srv.rows)
    ensures a.ScanWrite? ==>
              Apply(s, a).srv.counter == s.srv.counter && Writes(s.srv.rows, map[a.e := a.write], s.srv.scan.stamp, Apply(s, a).srv.rows)
    ensures a.ResolverApply? ==>
              Apply(s, a).srv.counter == s.srv.counter && Writes(s.srv.rows, a.writes, s.srv.promised.value, Apply(s, a).srv.rows)
    ensures a.ScanAllocate? || a.ResolverAllocate? ==>
              Apply(s, a).srv.counter == s.srv.counter + 1 && Apply(s, a).srv.rows == s.srv.rows
    ensures a.ScanAllocate? ==> Apply(s, a).srv.scan == Running(s.srv.counter + 1, s.srv.scan.stale)
    ensures a.ResolverAllocate? ==> Apply(s, a).srv.promised == Some(s.srv.counter + 1)
    ensures a.ScanStart? || a.ScanEnd? || PollOnly(a) || a.Fail? ==>
              Apply(s, a).srv.counter == s.srv.counter && Apply(s, a).srv.rows == s.srv.rows
    ensures a.SourceSwitch? && s.srv.scan != NoScan ==> Apply(s, a).srv.scan.stale
  {
  }

  /** The rows written hold what was written under this number, and no other row changes. */
  predicate Writes(rows: Catalog, writes: map<Entity, Write>, number: int, now: Catalog) {
    && now.Keys == rows.Keys + writes.Keys
    && forall e :: e in now ==> now[e] == if e in writes then Row(number, writes[e].missing, writes[e].content) else rows[e]
  }

  /** What the client's steps do to its view, its version and the response being built. */
  lemma {:induction false} ClientInRows(s: State, a: Action, e: Entity)
    requires Enabled(s, a)
    ensures a.Hydrate? && e == s.round.page[0].entity ==>
              if s.round.page[0].missing then e in Apply(s, a).round.received && Apply(s, a).round.received[e] == None
              else if e in s.srv.rows && !s.srv.rows[e].missing then
                e in Apply(s, a).round.received && Apply(s, a).round.received[e] == Some(s.srv.rows[e].content)
              else Apply(s, a).round.received == s.round.received
    ensures a.Respond? && e in s.round.received ==>
              if s.round.received[e] == None then e !in Apply(s, a).view
              else e in Apply(s, a).view && Apply(s, a).view[e] == s.round.received[e].value
    ensures a.Respond? && e !in s.round.received ==>
              (e in Apply(s, a).view <==> e in s.view) && (e in s.view ==> Apply(s, a).view[e] == s.view[e])
    ensures a.Respond? ==> Apply(s, a).since == if s.round.next == None then s.round.version else s.since
    ensures a.ReadScanningAgain? ==>
              Apply(s, a).round.version == if s.round.scanning || s.srv.scan != NoScan then s.since else s.round.version
    ensures a.Snapshot? ==> Apply(s, a).round.version == s.srv.counter && Apply(s, a).round.page == a.page
    ensures !a.Respond? ==> Apply(s, a).view == s.view && Apply(s, a).since == s.since
  {
  }

  predicate PollOnly(a: Action) {
    a.PollBegin? || a.ReadScanning? || a.Snapshot? || a.ReadScanningAgain? || a.Hydrate? || a.Respond?
  }

  // ---------------------------------------------------------------------
  // The hypotheses

  /** The last page of the round is answered with the snapshot's own version. */
  predicate Unpinned(s: State)
    requires s.round.Answered?
  {
    !s.round.scanning && !Scanning(s)
  }

  /** No whole scan fits between the two reads of the scanning flag. */
  predicate NoWholeScanBetween(s: State, a: Action) {
    a.ReadScanningAgain? && s.round.Answered? && Unpinned(s) ==> s.round.started == s.srv.scansStarted
  }

  /** Numbers are allocated in the transaction that stamps rows with them. */
  predicate NoAllocateThenApply(a: Action) {
    !a.ResolverAllocate? && !a.ResolverApply?
  }

  /** A round one of whose pages ended inside the stamp of a running scan does not finish
      with an unpinned version. */
  predicate CutRoundStaysPinned(s: State, a: Action) {
    a.ReadScanningAgain? && s.round.Answered? && s.round.cut && s.round.next.None? ==> !Unpinned(s)
  }

  datatype Hypothesis = WholeScan | AllocateApply | CutPinned

  predicate Meets(h: Hypothesis, s: State, a: Action) {
    match h
    case WholeScan => NoWholeScanBetween(s, a)
    case AllocateApply => NoAllocateThenApply(a)
    case CutPinned => CutRoundStaysPinned(s, a)
  }

  predicate Hyp(s: State, a: Action) {
    forall h :: h in ALL ==> Meets(h, s, a)
  }

  const ALL: set<Hypothesis> := {WholeScan, AllocateApply, CutPinned}

  /** `acts` lead from s to t, each one enabled and meeting the hypotheses hs. */
  ghost predicate Path(hs: set<Hypothesis>, s: State, acts: seq<Action>, t: State)
    decreases |acts|
  {
    if acts == [] then s == t
    else
      && Enabled(s, acts[0])
      && (forall h :: h in hs ==> Meets(h, s, acts[0]))
      && Path(hs, Apply(s, acts[0]), acts[1..], t)
  }

  const INIT := State(Server(map[], 0, NoScan, 0, None), map[], 0, Idle)

  // ---------------------------------------------------------------------
  // The invariant

  /** The client holds exactly the current content of e. */
  predicate Holds(view: map<Entity, int>, rows: Catalog, e: Entity) {
    if e in rows && !rows[e].missing then e in view && view[e] == rows[e].content else e !in view
  }

  /** The response being built reports the current content of e. */
  predicate Agrees(received: map<Entity, Option<int>>, rows: Catalog, e: Entity)
    requires e in rows
  {
    e in received && received[e] == if rows[e].missing then None else Some(rows[e].content)
  }

  /** e will still be delivered: above the version when idle, past the cursor in a round. */
  predicate Ahead(s: State, e: Entity)
    requires e in s.srv.rows
  {
    s.srv.rows[e].stamp > s.since &&
    (s.round.Idle? || s.round.cut || PastCursor(s.round.cursor, At(Of(s.srv.rows, e))))
  }

  ghost predicate ViewInv(s: State) {
    forall e :: e in s.srv.rows || e in s.view ==>
      e in s.srv.rows && (Holds(s.view, s.srv.rows, e) || Ahead(s, e))
  }

  predicate StampInv(s: State) {
    && 0 <= s.since <= s.srv.counter
    && (forall e :: e in s.srv.rows ==> 0 < s.srv.rows[e].stamp <= s.srv.counter)
    && (s.srv.scan.Running? ==>
          && s.since < s.srv.scan.stamp <= s.srv.counter
          && (!s.srv.scan.stale ==> forall e :: e in s.srv.rows ==> s.srv.rows[e].stamp <= s.srv.scan.stamp))
    && s.srv.promised.None?
  }

  /** A cursor lies between the version and the counter, and below a running scan's stamp
      unless the round is marked as cut. */
  predicate CursorInv(s: State, cursor: Option<Position>, cut: bool) {
    cursor.Some? ==>
      && s.since < cursor.value.stamp <= s.srv.counter
      && (s.srv.scan.Running? && !s.srv.scan.stale && cursor.value.stamp >= s.srv.scan.stamp ==> cut)
  }

  predicate ReadInv(s: State, scanning: bool, started: nat) {
    started <= s.srv.scansStarted && (!scanning && Scanning(s) ==> started < s.srv.scansStarted)
  }

  /** A row beyond the page in flight. */
  predicate Later(s: State, e: Entity)
    requires e in s.srv.rows && (s.round.Answered? || s.round.Hydrating?)
  {
    var p := At(Of(s.srv.rows, e));
    if s.round.next.Some? then s.round.cut || Before(s.round.next.value, p)
    else p.stamp > s.round.version || (s.round.Answered? && s.round.duringScan)
  }

  ghost predicate PageInv(s: State)
    requires s.round.Answered? || s.round.Hydrating?
  {
    && (forall c :: c in s.round.page ==>
          c.entity in s.srv.rows && c.stamp <= s.srv.rows[c.entity].stamp && Wanted(s.since, s.round.cursor, c))
    && (forall e :: e in s.srv.rows && Wanted(s.since, s.round.cursor, Of(s.srv.rows, e)) ==>
          || Of(s.srv.rows, e) in s.round.page
          || Later(s, e)
          || (s.round.Hydrating? && Agrees(s.round.received, s.srv.rows, e)))
    && (forall i, j :: 0 <= i < j < |s.round.page| ==> s.round.page[i].entity != s.round.page[j].entity)
    && (s.round.Hydrating? ==> forall c :: c in s.round.page ==> c.entity !in s.round.received)
    && (s.round.Hydrating? ==> forall e :: e in s.round.received ==>
          e in s.srv.rows && Wanted(s.since, s.round.cursor, Of(s.srv.rows, e)))
    && (s.round.next.Some? ==> CursorInv(s, s.round.next, s.round.cut))
  }

  ghost predicate RoundInv(s: State) {
    match s.round
    case Idle => true
    case Ready(cursor, cut) => CursorInv(s, cursor, cut)
    case FirstRead(cursor, cut, scanning, started) => CursorInv(s, cursor, cut) && ReadInv(s, scanning, started)
    case Answered(cursor, cut, scanning, started, page, next, version, duringScan) =>
      && CursorInv(s, cursor, cut) && ReadInv(s, scanning, started) && PageInv(s)
      && s.since <= version <= s.srv.counter
      && (duringScan && !scanning ==> started < s.srv.scansStarted)
      && (s.srv.scan.Running? ==> version < s.srv.scan.stamp || duringScan)
    case Hydrating(cursor, cut, page, next, version, received) =>
      && CursorInv(s, cursor, cut) && PageInv(s)
      && s.since <= version <= s.srv.counter
      && (next.None? && s.srv.scan.Running? ==> version < s.srv.scan.stamp)
      && (next.None? && cut ==> version == s.since)
  }

  ghost predicate Inv(s: State) {
    StampInv(s) && RoundInv(s) && ViewInv(s)
  }

  // ---------------------------------------------------------------------
  // Every step keeps the invariant

  /** A number above everything the round has passed: its rows will still be delivered. */
  predicate Fresh(s: State, q: int) {
    && q > s.since
    && (!s.round.Idle? && s.round.cursor.Some? ==> s.round.cut || q > s.round.cursor.value.stamp)
    && (s.round.Answered? || s.round.Hydrating? ==>
          if s.round.next.Some? then s.round.cut || q > s.round.next.value.stamp
          else q > s.round.version || (s.round.Answered? && s.round.duringScan))
  }

  lemma {:induction false} WrittenRowsStayVisible(s: State, t: State, writes: map<Entity, Write>, q: int)
    requires ViewInv(s) && Fresh(s, q)
    requires t == s.(srv := t.srv) && t.srv.rows == Stamped(s.srv.rows, writes, q)
    ensures ViewInv(t)
  {
    forall e | e in t.srv.rows || e in t.view
      ensures e in t.srv.rows && (Holds(t.view, t.srv.rows, e) || Ahead(t, e))
    {
      if e !in writes {
        assert e in s.srv.rows || e in s.view;
      }
    }
  }

  lemma {:induction false} WrittenRowsStayInPage(s: State, t: State, writes: map<Entity, Write>, q: int)
    requires s.round.Answered? || s.round.Hydrating?
    requires PageInv(s) && Fresh(s, q)
    requires t == s.(srv := t.srv) && t.srv.rows == Stamped(s.srv.rows, writes, q)
    requires forall e :: e in writes && e in s.srv.rows ==> s.srv.rows[e].stamp <= q
    requires s.round.next.Some? ==> CursorInv(t, s.round.next, s.round.cut)
    ensures PageInv(t)
  {
    WantedRowStays(s, t, writes, q);
    hide CursorInv, Fresh, Later, Agrees, Before, PastCursor;
  }

  /** Every wanted row stays in the page, behind it, or received. */
  lemma {:induction false} WantedRowStays(s: State, t: State, writes: map<Entity, Write>, q: int)
    requires s.round.Answered? || s.round.Hydrating?
    requires PageInv(s) && Fresh(s, q)
    requires t == s.(srv := t.srv) && t.srv.rows == Stamped(s.srv.rows, writes, q)
    ensures forall e :: e in t.srv.rows && Wanted(t.since, t.round.cursor, Of(t.srv.rows, e)) ==>
              Of(t.srv.rows, e) in t.round.page || Later(t, e) ||
              (t.round.Hydrating? && Agrees(t.round.received, t.srv.rows, e))
  {
    hide CursorInv;
    forall e | e in t.srv.rows && Wanted(t.since, t.round.cursor, Of(t.srv.rows, e))
      ensures Of(t.srv.rows, e) in t.round.page || Later(t, e) ||
              (t.round.Hydrating? && Agrees(t.round.received, t.srv.rows, e))
    {
      if e !in writes {
        assert Of(t.srv.rows, e) == Of(s.srv.rows, e);
      }
    }
  }

  lemma {:induction false} WriteKeepsInv(s: State, t: State, writes: map<Entity, Write>, q: int)
    requires Inv(s) && Fresh(s, q) && StampInv(t)
    requires t == s.(srv := t.srv) && t.srv.rows == Stamped(s.srv.rows, writes, q)
    requires forall e :: e in writes && e in s.srv.rows ==> s.srv.rows[e].stamp <= q
    requires t.srv.counter >= s.srv.counter && t.srv.scansStarted == s.srv.scansStarted
    requires t.srv.scan == s.srv.scan || (!s.srv.scan.NoScan? && t.srv.scan == s.srv.scan.(stale := true))
    ensures Inv(t)
  {
    WrittenRowsStayVisible(s, t, writes, q);
    if s.round.Answered? || s.round.Hydrating? {
      WrittenRowsStayInPage(s, t, writes, q);
    }
  }

  lemma {:induction false} SameRowsSamePage(s: State, t: State)
    requires t == s.(srv := t.srv) && t.srv.rows == s.srv.rows && (s.round.Answered? || s.round.Hydrating?)
    requires PageInv(s) && (t.round.next.Some? ==> CursorInv(t, t.round.next, t.round.cut))
    ensures PageInv(t)
  {
    hide CursorInv, PastCursor, Before;
    forall e | e in t.srv.rows && Wanted(t.since, t.round.cursor, Of(t.srv.rows, e))
      ensures Of(t.srv.rows, e) in t.round.page || Later(t, e) ||
              (t.round.Hydrating? && Agrees(t.round.received, t.srv.rows, e))
    {
      assert Wanted(s.since, s.round.cursor, Of(s.srv.rows, e));
    }
  }

  /** Rows and the client's side unchanged, the view stays right. */
  lemma {:induction false} SameRowsSameView(s: State, t: State)
    requires ViewInv(s) && t == s.(srv := t.srv) && t.srv.rows == s.srv.rows
    ensures ViewInv(t)
  {
    hide Holds;
  }

  lemma {:induction false} ScanStep(s: State, a: Action)
    requires Inv(s) && Enabled(s, a)
    requires a.ScanStart? || a.ScanAllocate? || a.ScanEnd?
    ensures Inv(Apply(s, a))
  {
    var t := Apply(s, a);
    SameRowsSameView(s, t);
    hide ViewInv;
    assert StampInv(t) by {
      hide PageInv, RoundInv;
    }
    if s.round.Answered? || s.round.Hydrating? {
      SameRowsSamePage(s, t);
      hide PageInv;
    }
  }

  lemma {:induction false} SnapshotStep(s: State, page: seq<Change>, next: Option<Position>)
    requires Inv(s) && Enabled(s, Snapshot(page, next))
    ensures Inv(Apply(s, Snapshot(page, next)))
  {
    var t := Apply(s, Snapshot(page, next));
    if next.Some? {
      assert page[|page| - 1] in page;
    }
    assert PageInv(t);
  }

  lemma {:induction false} HydrateView(s: State)
    requires ViewInv(s) && Enabled(s, Hydrate)
    ensures ViewInv(Apply(s, Hydrate))
  {
    var t := Apply(s, Hydrate);
    assert t.view == s.view && t.srv == s.srv && t.since == s.since;
    assert forall e :: e in s.srv.rows ==> Ahead(s, e) == Ahead(t, e);
  }

  /** A later number keeps a row wanted. */
  lemma {:induction false} WantedGrows(since: int, cursor: Option<Position>, c: Change, d: Change)
    requires Wanted(since, cursor, c) && c.entity == d.entity && c.stamp <= d.stamp
    ensures Wanted(since, cursor, d)
  {
  }

  lemma {:induction false} HydrateRest(s: State)
    requires s.round.Hydrating? && s.round.page != [] && PageInv(s)
    requires var t := Apply(s, Hydrate);
             forall e :: e in t.srv.rows && Wanted(t.since, t.round.cursor, Of(t.srv.rows, e)) ==>
               Of(t.srv.rows, e) in t.round.page || Later(t, e) || Agrees(t.round.received, t.srv.rows, e)
    ensures PageInv(Apply(s, Hydrate))
  {
    hide Wanted, Later, Agrees, CursorInv;
    var t := Apply(s, Hydrate);
    var c := s.round.page[0];
    RestOfPage(s, t);
    WantedGrows(s.since, s.round.cursor, c, Of(s.srv.rows, c.entity));
    SameCursor(s, t);
  }

  /** The rest of the page, and what its first row adds to the response. */
  lemma {:induction false} RestOfPage(s: State, t: State)
    requires s.round.Hydrating? && s.round.page != [] && PageInv(s) && t == Apply(s, Hydrate)
    ensures forall x :: x in t.round.page ==> x in s.round.page && x.entity != s.round.page[0].entity
    ensures forall i, j :: 0 <= i < j < |t.round.page| ==> t.round.page[i].entity != t.round.page[j].entity
    ensures t.round.received.Keys <= s.round.received.Keys + {s.round.page[0].entity} && s.round.page[0] in s.round.page
  {
    hide Wanted, Later, Agrees, CursorInv;
    var c, rest := s.round.page[0], s.round.page[1..];
    assert s.round.page == [c] + rest && c in s.round.page;
  }

  lemma {:induction false} SameCursor(s: State, t: State)
    requires (s.round.Hydrating? || s.round.Answered?) && (t.round.Hydrating? || t.round.Answered?)
    requires t.srv == s.srv && t.since == s.since && t.round.next == s.round.next && t.round.cut == s.round.cut
    ensures CursorInv(s, s.round.next, s.round.cut) == CursorInv(t, t.round.next, t.round.cut)
  {
  }

  lemma {:induction false} HydratePage(s: State)
    requires Inv(s) && Enabled(s, Hydrate)
    ensures PageInv(Apply(s, Hydrate))
  {
    var t := Apply(s, Hydrate);
    forall e | e in t.srv.rows && Wanted(t.since, t.round.cursor, Of(t.srv.rows, e))
      ensures Of(t.srv.rows, e) in t.round.page || Later(t, e) || Agrees(t.round.received, t.srv.rows, e)
    {
    }
    assert PageInv(s);
    hide Inv, PageInv, Wanted, Later, Agrees;
    HydrateRest(s);
  }

  lemma {:induction false} HydrateStep(s: State)
    requires Inv(s) && Enabled(s, Hydrate)
    ensures Inv(Apply(s, Hydrate))
  {
    HydratePage(s);
    HydrateView(s);
    hide ViewInv, PageInv;
  }

  lemma {:induction false} RespondStep(s: State)
    requires Inv(s) && Enabled(s, Respond)
    ensures Inv(Apply(s, Respond))
  {
    RespondView(s);
    hide ViewInv;
  }

  lemma {:induction false} RespondView(s: State)
    requires Inv(s) && Enabled(s, Respond)
    ensures ViewInv(Apply(s, Respond))
  {
    var t := Apply(s, Respond);
    hide StampInv;
    forall e | e in t.srv.rows || e in t.view
      ensures e in t.srv.rows && (Holds(t.view, t.srv.rows, e) || Ahead(t, e))
    {
      if Wanted(s.since, s.round.cursor, Of(s.srv.rows, e)) {
      } else {
        assert e !in s.round.received;
      }
    }
  }

  /** PollBegin, ReadScanning, ReadScanningAgain and Fail move the client only. */
  lemma {:induction false} ClientStep(s: State, a: Action)
    requires Inv(s) && Enabled(s, a) && Hyp(s, a)
    requires a.PollBegin? || a.ReadScanning? || a.ReadScanningAgain? || a.Fail?
    ensures Inv(Apply(s, a))
  {
    var t := Apply(s, a);
    if a.ReadScanningAgain? {
      forall e | e in t.srv.rows && Wanted(t.since, t.round.cursor, Of(t.srv.rows, e))
        ensures Of(t.srv.rows, e) in t.round.page || Later(t, e)
      {
        assert Of(s.srv.rows, e) in s.round.page || Later(s, e);
      }
      assert PageInv(t);
    }
    forall e | e in t.srv.rows || e in t.view
      ensures e in t.srv.rows && (Holds(t.view, t.srv.rows, e) || Ahead(t, e))
    {
      assert e in s.srv.rows && (Holds(s.view, s.srv.rows, e) || Ahead(s, e));
    }
  }

  lemma {:induction false} CounterWriteStep(s: State, a: Action)
    requires Inv(s) && Enabled(s, a) && (a.AtNextWrite? || a.SourceSwitch?)
    ensures Inv(Apply(s, a))
  {
    WriteKeepsInv(s, Apply(s, a), a.writes, s.srv.counter + 1);
  }

  lemma {:induction false} ScanWriteStep(s: State, a: Action)
    requires Inv(s) && Enabled(s, a) && a.ScanWrite?
    ensures Inv(Apply(s, a))
  {
    WriteKeepsInv(s, Apply(s, a), map[a.e := a.write], s.srv.scan.stamp);
  }

  lemma {:induction false} InvStep(s: State, a: Action)
    requires Inv(s) && Enabled(s, a) && Hyp(s, a)
    ensures Inv(Apply(s, a))
  {
    match a
    case AtNextWrite(_) => CounterWriteStep(s, a);
    case SourceSwitch(_) => CounterWriteStep(s, a);
    case ScanWrite(_, _) => ScanWriteStep(s, a);
    case ScanStart => ScanStep(s, a);
    case ScanAllocate => ScanStep(s, a);
    case ScanEnd(_) => ScanStep(s, a);
    case Snapshot(page, next) => SnapshotStep(s, page, next);
    case Hydrate => HydrateStep(s);
    case Respond => RespondStep(s);
    case PollBegin => ClientStep(s, a);
    case ReadScanning => ClientStep(s, a);
    case ReadScanningAgain => ClientStep(s, a);
    case Fail(_) => ClientStep(s, a);
  }

  // ---------------------------------------------------------------------
  // Nothing is lost

  function Present(rows: Catalog): map<Entity, int> {
    map e | e in rows && !rows[e].missing :: rows[e].content
  }

  /** The feed above the client's version is empty. */
  predicate Drained(s: State) {
    s.round.Idle? && forall e :: e in s.srv.rows ==> s.srv.rows[e].stamp <= s.since
  }

  lemma {:induction false} InvAlong(s: State, acts: seq<Action>, t: State)
    requires Inv(s) && Path(ALL, s, acts, t)
    ensures Inv(t)
    decreases |acts|
  {
    if acts != [] {
      InvStep(s, acts[0]);
      InvAlong(Apply(s, acts[0]), acts[1..], t);
    }
  }

  /** Safety over every run that meets the three hypotheses: a row the client does not hold
      exactly is still above its version (or past its cursor), so it will be delivered; and
      a drained client holds exactly the present rows with their current content. */
  lemma NothingIsLost(acts: seq<Action>, t: State)
    requires Path(ALL, INIT, acts, t)
    ensures forall e :: e in t.srv.rows ==> Holds(t.view, t.srv.rows, e) || Ahead(t, e)
    ensures forall e :: e in t.view ==> e in t.srv.rows
    ensures Drained(t) ==> t.view == Present(t.srv.rows)
  {
    assert Inv(INIT);
    InvAlong(INIT, acts, t);
    if Drained(t) {
      forall e ensures e in t.view <==> e in Present(t.srv.rows) {}
      assert t.view == Present(t.srv.rows);
    }
  }

  /** A poll in progress while nothing else runs. */
  predicate Quiet(s: State) {
    s.srv.scan.NoScan? &&
    match s.round
    case Idle => s.since == s.srv.counter
    case Ready(_, cut) => !cut
    case FirstRead(_, cut, scanning, started) => !cut && !scanning && started == s.srv.scansStarted
    case Answered(_, cut, scanning, started, _, _, version, duringScan) =>
      !cut && !scanning && started == s.srv.scansStarted && !duringScan && version == s.srv.counter
    case Hydrating(_, cut, _, _, version, _) => !cut && version == s.srv.counter
  }

  lemma {:induction false} QuietPath(s: State, acts: seq<Action>, t: State)
    requires Inv(s) && Quiet(s) && Path({}, s, acts, t) && forall a :: a in acts ==> PollOnly(a)
    ensures Inv(t) && Quiet(t) && t.srv == s.srv
    decreases |acts|
  {
    if acts != [] {
      assert PollOnly(acts[0]);
      InvStep(s, acts[0]);
      QuietPath(Apply(s, acts[0]), acts[1..], t);
    }
  }

  lemma {:induction false} DrainedIsExact(t: State)
    requires ViewInv(t) && StampInv(t) && t.round.Idle? && t.since == t.srv.counter
    ensures t.view == Present(t.srv.rows)
  {
    forall e
      ensures e in t.view <==> e in Present(t.srv.rows)
    {
    }
  }

  /** One undisturbed round, however many pages it takes, brings the client from any
      reachable idle state to exactly the present rows at the server's own version. No
      hypothesis is needed about the round itself. */
  lemma UndisturbedRoundDrains(before: seq<Action>, s: State, acts: seq<Action>, t: State)
    requires Path(ALL, INIT, before, s) && s.round.Idle? && s.srv.scan.NoScan?
    requires acts != [] && Path({}, s, acts, t) && forall a :: a in acts ==> PollOnly(a)
    requires t.round.Idle?
    ensures t.since == s.srv.counter && t.srv == s.srv && Drained(t)
    ensures t.view == Present(s.srv.rows)
  {
    assert Inv(INIT);
    InvAlong(INIT, before, s);
    assert PollOnly(acts[0]);
    InvStep(s, acts[0]);
    QuietPath(Apply(s, acts[0]), acts[1..], t);
    hide Path, Apply, Enabled, StampInv, RoundInv, ViewInv;
    DrainedIsExact(t);
  }
}
