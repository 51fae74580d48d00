/** library.Manager (internal/library/manager.go, internal/library/scan.go): source switches
    that fence off stale scans, the pending replacement scan, coalesced enrichment triggers
    with their reset requests, and the single operation token. One action is one critical
    section or one blocking step of a goroutine. */
module LibraryManager {
  import opened Common

  /** `source` is the identity of the source object: every Configure makes a new one.
      `epoch` counts source switches and only describes the run. */
  datatype Job = Job(source: int, sourceId: int, generation: int, epoch: nat)

  /** A scan goroutine before its bookkeeping: waiting for the token, or holding it. */
  datatype Scan = NoScan | Waiting(job: Job) | Working(job: Job)

  /** A scan goroutine after its bookkeeping: it still has to give the token back, and to
      trigger enrichment when its scan was neither stale nor cancelled. */
  datatype Releasing = NotReleasing | Freeing(announce: bool)

  /** The enrichment goroutine, by what it does next. `a` and `b` are the artist and album
      resets it took over from the manager. */
  datatype Worker =
    | NoWorker
    | Top
    | Acquire(a: bool, b: bool)
    | ResetArtists(a: bool, b: bool)
    | ResetAlbums(b: bool, failed: bool)
    | Decide(failed: bool)
    | Running
    | Release(more: bool, failed: bool)
    | After(failed: bool)
    | Backoff

  /** Unlink between its fence and the store transaction's result, with what a failure
      puts back. */
  datatype Unlinking = NotUnlinking | Fenced(source: Option<int>, sourceId: int, generation: int)

  /** What the store remembers of the source. */
  datatype Stored = Stored(root: Option<int>, sourceId: int, generation: int)

  datatype Sources = Sources(source: Option<int>, sourceId: int, generation: int, stored: Stored,
                             unlinking: Unlinking, nextSource: int, nextId: int, epoch: nat)

  /** `scannedEpoch` is the epoch of the last scan started; `writes` pairs the job epoch of
      each catalog write with the epoch at that moment. Both only describe the run. */
  datatype Scans = Scans(scanning: bool, pending: bool, scan: Scan, releasing: Releasing, announcing: nat,
                         scannedEpoch: nat, writes: seq<(nat, nat)>)

  /** `runOwed`: a trigger since the last Run started. `artistsOwed`, `albumsOwed`: a reset
      requested that has not succeeded since. The three only describe the run. */
  datatype Enrichment = Enrichment(enricher: bool, enriching: bool, pending: bool, artists: bool, albums: bool,
                                   worker: Worker, runOwed: bool, artistsOwed: bool, albumsOwed: bool)

  datatype State = State(sources: Sources, scans: Scans, enrichment: Enrichment, token: bool, closed: bool)

  datatype Action =
    | SetEnricher(on: bool)
    | Trigger(a: bool, b: bool)
    | Configure(root: int)
    | UnlinkFence
    | UnlinkCommit
    | UnlinkFailed
    | Rescan
    | Close
    | ScanAcquire
    | ScanWrite
    | ScanFinish(canceled: bool)
    | ScanRelease
    | ScanAnnounce
    | WorkerStep(ok: bool)

  predicate JobCurrent(s: Sources, j: Job) {
    s.source == Some(j.source) && s.sourceId == j.sourceId && s.generation == j.generation
  }

  predicate HoldsToken(w: Worker) {
    w.ResetArtists? || w.ResetAlbums? || w.Decide? || w.Running? || w.Release?
  }

  /** `ok` is the outcome of a reset, or of the wait before a reset is retried. */
  predicate WorkerReady(w: Worker, token: bool, closed: bool, ok: bool) {
    match w
    case NoWorker => false
    case Acquire(_, _) => token || closed
    case Backoff => ok || closed
    case _ => true
  }

  predicate Enabled(m: State, a: Action) {
    match a
    case SetEnricher(_) => true
    case Trigger(_, _) => true
    case Configure(_) => m.sources.unlinking.NotUnlinking? && !m.closed
    case UnlinkFence => m.sources.unlinking.NotUnlinking? && !m.closed
    case UnlinkCommit => m.sources.unlinking.Fenced?
    case UnlinkFailed => m.sources.unlinking.Fenced?
    case Rescan => true
    case Close => true
    case ScanAcquire => m.scans.scan.Waiting? && m.token && !m.closed
    case ScanWrite => m.scans.scan.Working?
    case ScanFinish(_) => m.scans.scan.Working? || (m.scans.scan.Waiting? && m.closed)
    case ScanRelease => m.scans.releasing.Freeing?
    case ScanAnnounce => m.scans.announcing > 0
    case WorkerStep(ok) => WorkerReady(m.enrichment.worker, m.token, m.closed, ok)
  }

  /** startScanLocked. */
  function ScanStarted(c: Scans, s: Sources): Scans
    requires s.source.Some?
  {
    c.(scanning := true, scan := Waiting(Job(s.source.value, s.sourceId, s.generation, s.epoch)), scannedEpoch := s.epoch)
  }

  /** A switch while a scan is live leaves the new scan pending. */
  function StartOrPend(c: Scans, s: Sources): Scans
    requires s.source.Some?
  {
    if c.scanning then c.(pending := true) else ScanStarted(c, s)
  }

  /** ConfigureFilesystemSource: a new identity only when the root changes. */
  function StoreConfigure(s: Stored, root: int, freshId: int): Stored {
    if s.root != Some(root) || s.sourceId == 0 then Stored(Some(root), freshId, s.generation + 1) else s
  }

  function SwitchTo(s: Sources, root: int): Sources {
    var stored := StoreConfigure(s.stored, root, s.nextId);
    s.(stored := stored, source := Some(s.nextSource), sourceId := stored.sourceId, generation := stored.generation,
       nextSource := s.nextSource + 1, nextId := s.nextId + 1, epoch := s.epoch + 1)
  }

  function Fence(s: Sources): Sources {
    s.(unlinking := Fenced(s.source, s.sourceId, s.generation + 1), source := None, sourceId := 0,
       generation := s.generation + 1, epoch := s.epoch + 1)
  }

  function PutBack(s: Sources): Sources
    requires s.unlinking.Fenced?
  {
    s.(unlinking := NotUnlinking, source := s.unlinking.source, sourceId := s.unlinking.sourceId,
       generation := s.unlinking.generation)
  }

  function AfterUnlinkFailed(m: State): State
    requires m.sources.unlinking.Fenced?
  {
    if m.closed then m.(sources := m.sources.(unlinking := NotUnlinking))
    else
      var s := PutBack(m.sources);
      m.(sources := s, scans := if s.source.Some? then StartOrPend(m.scans, s) else m.scans)
  }

  /** finishScanJob: a stale job hands over to the pending scan. */
  function FinishScan(c: Scans, s: Sources, closed: bool, canceled: bool): Scans
    requires !c.scan.NoScan?
  {
    var stale := !JobCurrent(s, c.scan.job);
    var n := if c.scan.Working? then c.(releasing := Freeing(!stale && !closed && !canceled)) else c;
    if stale && c.pending && s.source.Some? && !closed then ScanStarted(n.(pending := false), s)
    else n.(scanning := false, scan := NoScan)
  }

  function Triggered(e: Enrichment, closed: bool, a: bool, b: bool): Enrichment {
    if closed || !e.enricher then e
    else
      e.(pending := true, artists := e.artists || a, albums := e.albums || b,
         enriching := true, worker := if e.enriching then e.worker else Top,
         runOwed := true, artistsOwed := e.artistsOwed || a, albumsOwed := e.albumsOwed || b)
  }

  /** Requests made under an enricher that is taken away lapse. */
  function EnricherSet(e: Enrichment, on: bool): Enrichment {
    e.(enricher := on, runOwed := on && e.runOwed, artistsOwed := on && e.artistsOwed, albumsOwed := on && e.albumsOwed)
  }

  function Exit(e: Enrichment): Enrichment {
    e.(enriching := false, worker := NoWorker)
  }

  /** The loop's first critical section: take over the requests, or stop. */
  function TakeOver(e: Enrichment, closed: bool): (r: Enrichment)
    requires e.worker.Top?
    ensures !HoldsToken(r.worker)
  {
    if closed then Exit(e)
    else if !e.enricher then Exit(e.(pending := false, artists := false, albums := false))
    else e.(pending := false, artists := false, albums := false, worker := Acquire(e.artists, e.albums))
  }

  /** A failed reset puts its request back. */
  function TryArtists(e: Enrichment, ok: bool): (r: Enrichment)
    requires e.worker.ResetArtists?
    ensures HoldsToken(r.worker)
  {
    if e.worker.a && !ok then e.(artists := true, worker := ResetAlbums(e.worker.b, true))
    else e.(worker := ResetAlbums(e.worker.b, false), artistsOwed := e.artistsOwed && (!e.worker.a || e.artists))
  }

  function TryAlbums(e: Enrichment, ok: bool): (r: Enrichment)
    requires e.worker.ResetAlbums?
    ensures HoldsToken(r.worker)
  {
    if e.worker.b && !ok then e.(albums := true, worker := Decide(true))
    else e.(worker := Decide(e.worker.failed), albumsOwed := e.albumsOwed && (!e.worker.b || e.albums))
  }

  /** Run only when every reset asked for so far has succeeded. */
  function DecideRun(e: Enrichment, closed: bool): (r: Enrichment)
    requires e.worker.Decide?
    ensures HoldsToken(r.worker)
  {
    if e.worker.failed then e.(worker := Release(false, true))
    else if e.artists || e.albums then e.(worker := Release(true, false))
    else if closed then e.(worker := Release(false, false))
    else e.(worker := Running, runOwed := false)
  }

  function LoopOrStop(e: Enrichment, closed: bool): (r: Enrichment)
    requires e.worker.After?
    ensures !HoldsToken(r.worker)
  {
    if closed then Exit(e)
    else if e.worker.failed then e.(worker := Backoff)
    else if !e.pending && !e.artists && !e.albums then Exit(e)
    else e.(worker := Top)
  }

  /** The steps runEnrichment takes without the token; acquiring it ends them. */
  function OutsideStep(e: Enrichment, closed: bool, ok: bool): (r: Enrichment)
    requires !HoldsToken(e.worker)
    ensures HoldsToken(r.worker) <==> e.worker.Acquire? && !closed
  {
    if e.worker.Top? then TakeOver(e, closed)
    else if e.worker.Acquire? then if closed then Exit(e) else e.(worker := ResetArtists(e.worker.a, e.worker.b))
    else if e.worker.After? then LoopOrStop(e, closed)
    else if e.worker.Backoff? && ok then e.(worker := Top)
    else Exit(e)
  }

  /** The steps it takes while holding the token; releasing it ends them. */
  function InsideStep(e: Enrichment, closed: bool, ok: bool): (r: Enrichment)
    requires HoldsToken(e.worker)
    ensures HoldsToken(r.worker) <==> !e.worker.Release?
  {
    if e.worker.ResetArtists? then TryArtists(e, ok)
    else if e.worker.ResetAlbums? then TryAlbums(e, ok)
    else if e.worker.Decide? then DecideRun(e, closed)
    else if e.worker.Running? then e.(worker := Release(false, false))
    else e.(worker := if e.worker.more then Top else After(e.worker.failed))
  }

  /** One step of runEnrichment. */
  function Worked(e: Enrichment, closed: bool, ok: bool): Enrichment {
    if HoldsToken(e.worker) then InsideStep(e, closed, ok) else OutsideStep(e, closed, ok)
  }

  /** The token after a worker step: taken when the reset begins, put back on release. */
  function TokenAfter(w: Worker, token: bool, closed: bool): bool {
    if w.Acquire? && !closed then false else if w.Release? then true else token
  }

  function Count(b: bool): nat {
    if b then 1 else 0
  }

  function Apply(m: State, a: Action): State
    requires Enabled(m, a)
  {
    match a
    case SetEnricher(on) =>
      m.(enrichment := EnricherSet(m.enrichment, on))
    case Trigger(x, y) => m.(enrichment := Triggered(m.enrichment, m.closed, x, y))
    case Configure(root) =>
      var s := SwitchTo(m.sources, root);
      m.(sources := s, scans := StartOrPend(m.scans, s))
    case UnlinkFence => m.(sources := Fence(m.sources), scans := m.scans.(pending := false))
    case UnlinkCommit =>
      var next := m.sources.stored.generation + 1;
      m.(sources := m.sources.(unlinking := NotUnlinking, stored := Stored(None, 0, next), generation := next))
    case UnlinkFailed => AfterUnlinkFailed(m)
    case Rescan =>
      if m.closed || m.sources.source.None? || m.scans.scanning then m
      else m.(scans := ScanStarted(m.scans, m.sources))
    case Close => m.(closed := true)
    case ScanAcquire => m.(token := false, scans := m.scans.(scan := Working(m.scans.scan.job)))
    case ScanWrite =>
      if JobCurrent(m.sources, m.scans.scan.job) && !m.closed then
        m.(scans := m.scans.(writes := m.scans.writes + [(m.scans.scan.job.epoch, m.sources.epoch)]))
      else m
    case ScanFinish(canceled) => m.(scans := FinishScan(m.scans, m.sources, m.closed, canceled))
    case ScanRelease =>
      m.(token := true,
         scans := m.scans.(releasing := NotReleasing, announcing := m.scans.announcing + Count(m.scans.releasing.announce)))
    case ScanAnnounce =>
      m.(enrichment := Triggered(m.enrichment, m.closed, false, false),
         scans := m.scans.(announcing := m.scans.announcing - 1))
    case WorkerStep(ok) =>
      m.(enrichment := Worked(m.enrichment, m.closed, ok), token := TokenAfter(m.enrichment.worker, m.token, m.closed))
  }

  /** A freshly started manager, with or without a source restored from the store. */
  predicate Initial(m: State) {
    && m.sources.unlinking.NotUnlinking? && m.sources.epoch == 0
    && (m.sources.source.Some? ==> m.sources.source.value < m.sources.nextSource)
    && m.scans == Scans(false, false, NoScan, NotReleasing, 0, 0, [])
    && m.enrichment == Enrichment(false, false, false, false, false, NoWorker, false, false, false)
    && m.token && !m.closed
  }

  // ---------------------------------------------------------------------
  // Fencing and the pending scan

  /** The source identity a live job could still match: the current one, or the one an
      unlink in progress may put back. */
  predicate Matches(s: Sources, source: int) {
    s.source == Some(source) || (s.unlinking.Fenced? && s.unlinking.source == Some(source))
  }

  predicate SourcesInv(s: Sources) {
    && (s.source.Some? ==> s.source.value < s.nextSource)
    && (s.unlinking.Fenced? ==>
          && s.source.None? && s.unlinking.generation == s.generation
          && (s.unlinking.source.Some? ==> s.unlinking.source.value < s.nextSource))
  }

  /** A job is current exactly in the epoch it was started in. */
  predicate JobInv(s: Sources, j: Job) {
    && j.source < s.nextSource && j.epoch <= s.epoch
    && (Matches(s, j.source) ==> if s.unlinking.Fenced? then j.generation < s.generation else j.generation <= s.generation)
    && (JobCurrent(s, j) <==> s.source.Some? && j.epoch == s.epoch)
    && (s.source.None? ==> j.epoch < s.epoch)
  }

  predicate ScansInv(c: Scans, s: Sources, closed: bool) {
    && (c.scanning <==> !c.scan.NoScan?)
    && (!c.scan.NoScan? ==> JobInv(s, c.scan.job))
    && (c.pending ==> s.source.Some? && (closed || (!c.scan.NoScan? && !JobCurrent(s, c.scan.job))))
    && (s.source.Some? && !c.pending ==> c.scannedEpoch == s.epoch)
    && (forall i :: 0 <= i < |c.writes| ==> c.writes[i].0 == c.writes[i].1)
  }

  // ---------------------------------------------------------------------
  // Enrichment and the token

  /** The worker is bound to reach a Run decision (or a retry) before it can exit. */
  predicate Committed(w: Worker) {
    match w
    case Release(more, failed) => more || failed
    case After(failed) => failed
    case Running => false
    case NoWorker => false
    case _ => true
  }

  /** The worker carries a reset request it took over and has not tried yet. */
  predicate CarriesArtists(w: Worker) {
    (w.Acquire? || w.ResetArtists?) && w.a
  }

  predicate CarriesAlbums(w: Worker) {
    (w.Acquire? || w.ResetArtists? || w.ResetAlbums?) && w.b
  }

  /** A worker is live whenever there is something left to do. */
  predicate LiveInv(e: Enrichment, closed: bool) {
    && (e.enriching <==> !e.worker.NoWorker?)
    && (!closed && (e.pending || e.artists || e.albums) ==> e.enriching)
  }

  /** A trigger not yet answered by a Run is pending or in the worker's hands. */
  predicate RunInv(e: Enrichment, closed: bool) {
    !closed && e.runOwed ==> e.enricher && (e.pending || Committed(e.worker))
  }

  /** A reset not yet done is requested or in the worker's hands; a failed one is requested again. */
  predicate ResetInv(e: Enrichment, closed: bool) {
    !closed ==>
      && (e.artistsOwed ==> e.enricher && (e.artists || CarriesArtists(e.worker)))
      && (e.albumsOwed ==> e.enricher && (e.albums || CarriesAlbums(e.worker)))
  }

  predicate EnrichmentInv(e: Enrichment, closed: bool) {
    LiveInv(e, closed) && RunInv(e, closed) && ResetInv(e, closed)
  }

  /** Everyone who holds the operation token. */
  function Holders(m: State): nat {
    Count(m.scans.scan.Working?) + Count(m.scans.releasing.Freeing?) + Count(HoldsToken(m.enrichment.worker))
  }

  predicate Inv(m: State) {
    && SourcesInv(m.sources)
    && ScansInv(m.scans, m.sources, m.closed)
    && EnrichmentInv(m.enrichment, m.closed)
    && Count(m.token) + Holders(m) == 1
  }

  lemma {:induction false} ScansInvStep(m: State, a: Action)
    requires Inv(m) && Enabled(m, a)
    ensures SourcesInv(Apply(m, a).sources)
    ensures ScansInv(Apply(m, a).scans, Apply(m, a).sources, Apply(m, a).closed)
  {
    hide EnrichmentInv, Worked, Triggered, Holders;
  }

  lemma {:induction false} TakeOverKeeps(e: Enrichment, closed: bool)
    requires EnrichmentInv(e, closed) && e.worker.Top?
    ensures EnrichmentInv(TakeOver(e, closed), closed)
  {
  }

  lemma {:induction false} ArtistsTried(e: Enrichment, ok: bool)
    requires e.worker.ResetArtists?
    ensures var n := TryArtists(e, ok);
            && n.enricher == e.enricher && n.pending == e.pending && n.enriching == e.enriching && n.albums == e.albums
            && n.runOwed == e.runOwed && n.albumsOwed == e.albumsOwed && n.worker.ResetAlbums? && n.worker.b == e.worker.b
            && n.artists == (e.artists || (e.worker.a && !ok)) && n.worker.failed == (e.worker.a && !ok)
            && n.artistsOwed == (e.artistsOwed && (!e.worker.a || !ok || e.artists))
  {
    if e.worker.a && !ok {
      assert TryArtists(e, ok) == e.(artists := true, worker := ResetAlbums(e.worker.b, true));
    }
  }

  lemma {:induction false} ArtistsKeep(e: Enrichment, closed: bool, ok: bool)
    requires EnrichmentInv(e, closed) && e.worker.ResetArtists?
    ensures EnrichmentInv(TryArtists(e, ok), closed)
  {
    ArtistsTried(e, ok);
    hide TryArtists;
  }

  lemma {:induction false} AlbumsKeep(e: Enrichment, closed: bool, ok: bool)
    requires EnrichmentInv(e, closed) && e.worker.ResetAlbums?
    ensures EnrichmentInv(TryAlbums(e, ok), closed)
  {
  }

  /** Deciding changes the worker, and pays the Run debt exactly by starting a Run. */
  lemma {:induction false} Decided(e: Enrichment, closed: bool)
    requires e.worker.Decide?
    ensures var n := DecideRun(e, closed);
            && n.enricher == e.enricher && n.pending == e.pending && n.enriching == e.enriching
            && n.artists == e.artists && n.albums == e.albums
            && n.artistsOwed == e.artistsOwed && n.albumsOwed == e.albumsOwed && n.runOwed == (e.runOwed && !n.worker.Running?)
            && (n.worker.Running? <==> !e.worker.failed && !e.artists && !e.albums && !closed)
            && (!n.worker.Running? ==> n.worker == Release(!e.worker.failed && (e.artists || e.albums), e.worker.failed))
  {
    if e.worker.failed {
      assert DecideRun(e, closed) == e.(worker := Release(false, true));
    } else if e.artists || e.albums {
      assert DecideRun(e, closed) == e.(worker := Release(true, false));
    } else if closed {
      assert DecideRun(e, closed) == e.(worker := Release(false, false));
    } else {
      assert DecideRun(e, closed) == e.(worker := Running, runOwed := false);
    }
    hide DecideRun;
  }

  lemma {:induction false} DecideKeeps(e: Enrichment, closed: bool)
    requires EnrichmentInv(e, closed) && e.worker.Decide?
    ensures EnrichmentInv(DecideRun(e, closed), closed)
  {
    hide DecideRun, HoldsToken;
    Decided(e, closed);
    var n := DecideRun(e, closed);
    assert Committed(n.worker) || (!e.worker.failed && !e.artists && !e.albums && n.runOwed == (e.runOwed && !n.worker.Running?));
  }

  lemma {:induction false} LoopKeeps(e: Enrichment, closed: bool)
    requires EnrichmentInv(e, closed) && e.worker.After?
    ensures EnrichmentInv(LoopOrStop(e, closed), closed)
  {
  }

  lemma {:induction false} OutsideKeeps(e: Enrichment, closed: bool, ok: bool)
    requires EnrichmentInv(e, closed) && !HoldsToken(e.worker) && (e.worker.Backoff? ==> ok || closed)
    ensures EnrichmentInv(OutsideStep(e, closed, ok), closed)
  {
    hide TakeOver, LoopOrStop;
    if e.worker.Top? {
      TakeOverKeeps(e, closed);
    } else if e.worker.After? {
      LoopKeeps(e, closed);
    }
  }

  lemma {:induction false} InsideKeeps(e: Enrichment, closed: bool, ok: bool)
    requires EnrichmentInv(e, closed) && HoldsToken(e.worker)
    ensures EnrichmentInv(InsideStep(e, closed, ok), closed)
  {
    hide TryArtists, TryAlbums, DecideRun;
    if e.worker.ResetArtists? {
      ArtistsKeep(e, closed, ok);
    } else if e.worker.ResetAlbums? {
      AlbumsKeep(e, closed, ok);
    } else if e.worker.Decide? {
      DecideKeeps(e, closed);
    }
  }

  lemma {:induction false} EnrichmentInvStep(m: State, a: Action)
    requires Inv(m) && Enabled(m, a)
    ensures EnrichmentInv(Apply(m, a).enrichment, Apply(m, a).closed)
  {
    hide ScansInv, SourcesInv, Holders, ScanStarted, FinishScan, StartOrPend, Fence, SwitchTo, PutBack;
    if a.WorkerStep? {
      hide OutsideStep, InsideStep, EnrichmentInv;
      if HoldsToken(m.enrichment.worker) {
        InsideKeeps(m.enrichment, m.closed, a.ok);
      } else {
        OutsideKeeps(m.enrichment, m.closed, a.ok);
      }
    }
  }

  lemma {:induction false} WorkerMovesToken(e: Enrichment, token: bool, closed: bool, ok: bool)
    requires WorkerReady(e.worker, token, closed, ok)
    requires Count(token) + Count(HoldsToken(e.worker)) <= 1
    ensures Count(TokenAfter(e.worker, token, closed)) + Count(HoldsToken(Worked(e, closed, ok).worker))
         == Count(token) + Count(HoldsToken(e.worker))
  {
    hide InsideStep, OutsideStep;
  }

  lemma {:induction false} TokenStep(m: State, a: Action)
    requires Inv(m) && Enabled(m, a)
    ensures Count(Apply(m, a).token) + Holders(Apply(m, a)) == 1
  {
    hide SourcesInv, Fence, SwitchTo, PutBack, JobInv, RunInv, ResetInv, Worked, WorkerReady, TokenAfter;
    if a.WorkerStep? {
      WorkerMovesToken(m.enrichment, m.token, m.closed, a.ok);
    }
  }

  lemma {:induction false} InvStep(m: State, a: Action)
    requires Inv(m) && Enabled(m, a)
    ensures Inv(Apply(m, a))
  {
    ScansInvStep(m, a);
    EnrichmentInvStep(m, a);
    TokenStep(m, a);
    hide ScansInv, SourcesInv, EnrichmentInv, Holders, Apply;
  }

  // ---------------------------------------------------------------------
  // Runs

  /** A run: every state follows from the one before by an action enabled there. */
  ghost predicate Run(ms: seq<State>, acts: seq<Action>) {
    && |ms| == |acts| + 1 && Initial(ms[0])
    && (forall i :: 0 <= i < |acts| ==> Enabled(ms[i], acts[i]) && ms[i + 1] == Apply(ms[i], acts[i]))
  }

  lemma {:induction false} RunStep(ms: seq<State>, acts: seq<Action>, i: nat)
    requires Run(ms, acts) && i < |acts|
    ensures Enabled(ms[i], acts[i]) && ms[i + 1] == Apply(ms[i], acts[i])
  {
    hide Enabled, Apply;
  }

  lemma {:induction false} InvAlong(ms: seq<State>, acts: seq<Action>, k: nat)
    requires Run(ms, acts) && k <= |acts|
    ensures Inv(ms[k])
  {
    if k == 0 {
    } else {
      InvAlong(ms, acts, k - 1);
      hide Inv, Apply, Enabled;
      InvStep(ms[k - 1], acts[k - 1]);
    }
  }

  predicate Switches(a: Action) {
    a.Configure? || a.UnlinkFence?
  }

  lemma {:induction false} EpochsGrow(ms: seq<State>, acts: seq<Action>, j: nat, i: nat)
    requires Run(ms, acts) && j <= i <= |acts|
    ensures ms[j].sources.epoch <= ms[i].sources.epoch
    ensures j < i && Switches(acts[j]) ==> ms[j].sources.epoch < ms[i].sources.epoch
  {
    if j < i {
      EpochsGrow(ms, acts, j, i - 1);
      hide Worked, Triggered, ScanStarted, StartOrPend, FinishScan;
      assert ms[i] == Apply(ms[i - 1], acts[i - 1]);
    }
  }

  /** Generation fencing: a scan job that was live at a source switch writes no catalog row
      after it, in any run, however the switch is followed by others or undone. */
  lemma {:induction false} FencedJobNeverWrites(ms: seq<State>, acts: seq<Action>, j: nat, i: nat)
    requires Run(ms, acts) && j < i < |acts| && Switches(acts[j])
    requires !ms[j].scans.scan.NoScan? && !ms[i].scans.scan.NoScan? && ms[i].scans.scan.job == ms[j].scans.scan.job
    requires acts[i].ScanWrite?
    ensures ms[i + 1] == ms[i]
  {
    InvAlong(ms, acts, j);
    InvAlong(ms, acts, i);
    EpochsGrow(ms, acts, j, i);
    hide EnrichmentInv, Worked, Triggered, Holders;
    assert ms[i + 1] == Apply(ms[i], acts[i]);
  }

  /** Every catalog write of a run was made in the epoch its job was started in. */
  lemma {:induction false} WritesAreCurrent(ms: seq<State>, acts: seq<Action>, k: nat, i: nat)
    requires Run(ms, acts) && k <= |acts| && i < |ms[k].scans.writes|
    ensures ms[k].scans.writes[i].0 == ms[k].scans.writes[i].1
  {
    InvAlong(ms, acts, k);
  }

  /** In any run: `scanning` tells whether a scan goroutine is live; a pending scan means the
      live job is stale (or the manager closed); and the source switched in last has been
      scanned or has a scan pending. */
  lemma {:induction false} ScanFlags(ms: seq<State>, acts: seq<Action>, k: nat)
    requires Run(ms, acts) && k <= |acts|
    ensures var c, s := ms[k].scans, ms[k].sources;
            && (c.scanning <==> !c.scan.NoScan?)
            && (c.pending && !ms[k].closed ==> s.source.Some? && !c.scan.NoScan? && !JobCurrent(s, c.scan.job))
            && (s.source.Some? ==> c.pending || c.scannedEpoch == s.epoch)
  {
    InvAlong(ms, acts, k);
  }

  /** When the live job ends, a pending scan starts for the current source; otherwise no scan
      is live any more. */
  lemma {:induction false} PendingScanStarts(m: State, canceled: bool)
    requires Inv(m) && Enabled(m, ScanFinish(canceled))
    ensures var n := Apply(m, ScanFinish(canceled));
            if m.scans.pending && !m.closed then
              n.scans.scan.Waiting? && JobCurrent(n.sources, n.scans.scan.job) && !n.scans.pending
            else !n.scans.scanning && n.scans.scan.NoScan?
  {
    hide EnrichmentInv, Worked, Triggered, Holders;
  }

  /** A scan body and a Run never overlap: the token has one owner. */
  lemma {:induction false} OneHolder(ms: seq<State>, acts: seq<Action>, k: nat)
    requires Run(ms, acts) && k <= |acts|
    ensures Count(ms[k].token) + Holders(ms[k]) == 1
    ensures !(ms[k].scans.scan.Working? && ms[k].enrichment.worker.Running?)
  {
    InvAlong(ms, acts, k);
  }

  /** While the manager is open, unfinished work always has a worker. */
  lemma {:induction false} WorkIsAttended(ms: seq<State>, acts: seq<Action>, k: nat)
    requires Run(ms, acts) && k <= |acts| && !ms[k].closed
    ensures var e := ms[k].enrichment; e.pending || e.artists || e.albums || e.runOwed ==> !e.worker.NoWorker?
  {
    InvAlong(ms, acts, k);
  }

  /** The enricher stays set from step j on, up to step i. */
  ghost predicate EnricherKept(acts: seq<Action>, j: nat, i: nat)
    requires j <= i <= |acts|
  {
    forall k :: j <= k < i ==> acts[k] != SetEnricher(false)
  }

  /** A worker step that starts a Run, or that completes a reset it took over. */
  predicate RunStarts(e: Enrichment, closed: bool) {
    e.worker.Decide? && DecideRun(e, closed).worker.Running?
  }

  predicate ArtistsReset(e: Enrichment, ok: bool) {
    e.worker.ResetArtists? && e.worker.a && ok
  }

  predicate AlbumsReset(e: Enrichment, ok: bool) {
    e.worker.ResetAlbums? && e.worker.b && ok
  }

  /** `n` owes whatever `e` owed, apart from the debts marked paid. */
  predicate StillOwes(e: Enrichment, n: Enrichment, run: bool, artists: bool, albums: bool) {
    && (e.runOwed && !run ==> n.runOwed)
    && (e.artistsOwed && !artists ==> n.artistsOwed)
    && (e.albumsOwed && !albums ==> n.albumsOwed)
  }

  lemma {:induction false} TakeOverDebts(e: Enrichment, closed: bool)
    requires e.worker.Top?
    ensures StillOwes(e, TakeOver(e, closed), false, false, false)
  {
  }

  lemma {:induction false} LoopDebts(e: Enrichment, closed: bool)
    requires e.worker.After?
    ensures StillOwes(e, LoopOrStop(e, closed), false, false, false)
  {
    if closed || (!e.worker.failed && !e.pending && !e.artists && !e.albums) {
      assert LoopOrStop(e, closed) == Exit(e);
    } else {
      assert LoopOrStop(e, closed) == e.(worker := LoopOrStop(e, closed).worker);
    }
    hide LoopOrStop;
  }

  lemma {:induction false} OutsideDebts(e: Enrichment, closed: bool, ok: bool)
    requires !HoldsToken(e.worker)
    ensures StillOwes(e, OutsideStep(e, closed, ok), false, false, false)
  {
    if e.worker.Top? {
      hide TakeOver, LoopOrStop, StillOwes;
      TakeOverDebts(e, closed);
    } else if e.worker.After? {
      hide TakeOver, LoopOrStop, StillOwes;
      LoopDebts(e, closed);
    } else {
      hide TakeOver, LoopOrStop;
    }
  }

  lemma {:induction false} ResetDebts(e: Enrichment, ok: bool)
    ensures e.worker.ResetArtists? ==> StillOwes(e, TryArtists(e, ok), false, ArtistsReset(e, ok), false)
    ensures e.worker.ResetAlbums? ==> StillOwes(e, TryAlbums(e, ok), false, false, AlbumsReset(e, ok))
  {
  }

  lemma {:induction false} RunDebts(e: Enrichment, closed: bool)
    requires e.worker.Decide?
    ensures StillOwes(e, DecideRun(e, closed), RunStarts(e, closed), false, false)
  {
    hide DecideRun;
    Decided(e, closed);
  }

  lemma {:induction false} InsideDebts(e: Enrichment, closed: bool, ok: bool)
    requires HoldsToken(e.worker)
    ensures StillOwes(e, InsideStep(e, closed, ok), RunStarts(e, closed), ArtistsReset(e, ok), AlbumsReset(e, ok))
  {
    ResetDebts(e, ok);
    if e.worker.Decide? {
      RunDebts(e, closed);
    }
    hide TryArtists, TryAlbums, DecideRun;
  }

  /** Did this step of the run start a Run, or complete a reset? */
  predicate StartsRun(m: State, a: Action) {
    a.WorkerStep? && RunStarts(m.enrichment, m.closed)
  }

  predicate ResetsArtists(m: State, a: Action) {
    a.WorkerStep? && ArtistsReset(m.enrichment, a.ok)
  }

  predicate ResetsAlbums(m: State, a: Action) {
    a.WorkerStep? && AlbumsReset(m.enrichment, a.ok)
  }

  lemma {:induction false} DebtsPersist(m: State, a: Action)
    requires Enabled(m, a) && a != SetEnricher(false)
    ensures StillOwes(m.enrichment, Apply(m, a).enrichment, StartsRun(m, a), ResetsArtists(m, a), ResetsAlbums(m, a))
  {
    hide ScanStarted, StartOrPend, FinishScan, SwitchTo, Fence, PutBack, JobCurrent, InsideStep, OutsideStep, RunStarts, ArtistsReset,
         AlbumsReset;
    if a.WorkerStep? {
      if HoldsToken(m.enrichment.worker) {
        InsideDebts(m.enrichment, m.closed, a.ok);
      } else {
        OutsideDebts(m.enrichment, m.closed, a.ok);
      }
    }
  }

  /** Until one of the steps from j to i pays it, a debt of step j stands at step i. */
  lemma {:induction false} DebtsStand(ms: seq<State>, acts: seq<Action>, j: nat, i: nat)
    requires Run(ms, acts) && j <= i <= |acts| && |ms| == |acts| + 1 && EnricherKept(acts, j, i)
    ensures StillOwes(ms[j].enrichment, ms[i].enrichment,
                      exists k :: j <= k < i && StartsRun(ms[k], acts[k]),
                      exists k :: j <= k < i && ResetsArtists(ms[k], acts[k]),
                      exists k :: j <= k < i && ResetsAlbums(ms[k], acts[k]))
  {
    hide Apply, Enabled, Run, StartsRun, ResetsArtists, ResetsAlbums;
    if j < i {
      DebtsStand(ms, acts, j, i - 1);
      RunStep(ms, acts, i - 1);
      DebtsPersist(ms[i - 1], acts[i - 1]);
    }
  }

  lemma {:induction false} TriggerOwes(m: State, a: bool, b: bool)
    requires !m.closed && m.enrichment.enricher
    ensures var n := Apply(m, Trigger(a, b)).enrichment;
            n.runOwed && (a ==> n.artistsOwed) && (b ==> n.albumsOwed)
  {
  }

  /** A trigger is never dropped: while the enricher stays set, the enrichment goroutine does
      not stop before a Run has started after the trigger. */
  lemma {:induction false} TriggerIsAnswered(ms: seq<State>, acts: seq<Action>, j: nat, i: nat)
    requires Run(ms, acts) && j < i <= |acts| && EnricherKept(acts, j, i)
    requires acts[j].Trigger? && ms[j].enrichment.enricher && !ms[j].closed
    requires !ms[i].closed && ms[i].enrichment.worker.NoWorker?
    ensures exists k :: j < k < i && ms[k].enrichment.worker.Decide? && ms[k + 1].enrichment.worker == Running
  {
    TriggerOwes(ms[j], acts[j].a, acts[j].b);
    assert ms[j + 1] == Apply(ms[j], acts[j]);
    DebtsStand(ms, acts, j + 1, i);
    WorkIsAttended(ms, acts, i);
    hide Run, Apply, StartsRun, Enabled;
    var k :| j < k < i && StartsRun(ms[k], acts[k]);
    RunStep(ms, acts, k);
    StartedRun(ms[k], acts[k]);
  }

  lemma {:induction false} StartedRun(m: State, a: Action)
    requires Enabled(m, a) && StartsRun(m, a)
    ensures m.enrichment.worker.Decide? && Apply(m, a).enrichment.worker == Running
  {
  }

  lemma {:induction false} RunOwesNoReset(m: State, a: Action)
    requires Inv(m) && StartsRun(m, a)
    ensures !m.enrichment.artistsOwed && !m.enrichment.albumsOwed
  {
    hide ScansInv, SourcesInv, Holders;
  }

  /** A Run sees every reset done: a reset requested before the Run was decided on has
      succeeded between its request and that decision. */
  lemma {:induction false} RunSeesResets(ms: seq<State>, acts: seq<Action>, j: nat, i: nat)
    requires Run(ms, acts) && j < i < |acts| && EnricherKept(acts, j, i)
    requires acts[j].Trigger? && ms[j].enrichment.enricher && !ms[j].closed
    requires StartsRun(ms[i], acts[i])
    ensures acts[j].a ==> exists k :: j < k < i && ResetsArtists(ms[k], acts[k])
    ensures acts[j].b ==> exists k :: j < k < i && ResetsAlbums(ms[k], acts[k])
  {
    hide Apply, Enabled, Inv, StartsRun, ResetsArtists, ResetsAlbums;
    TriggerOwes(ms[j], acts[j].a, acts[j].b);
    RunStep(ms, acts, j);
    DebtsStand(ms, acts, j + 1, i);
    InvAlong(ms, acts, i);
    RunOwesNoReset(ms[i], acts[i]);
  }

  // ---------------------------------------------------------------------
  // From the end of a scan to a Run

  /** A scan ends here whose job still is the current source's, on an open manager. */
  predicate FinishesWell(m: State, a: Action) {
    && a == ScanFinish(false) && !m.closed && m.scans.scan.Working?
    && m.sources.source == Some(m.scans.scan.job.source)
    && m.sources.sourceId == m.scans.scan.job.sourceId && m.sources.generation == m.scans.scan.job.generation
  }

  /** How many of the first k steps are such ends, and how many are announcements. */
  ghost function WellFinished(ms: seq<State>, acts: seq<Action>, k: nat): nat
    requires k <= |acts| <= |ms|
  {
    if k == 0 then 0 else WellFinished(ms, acts, k - 1) + if FinishesWell(ms[k - 1], acts[k - 1]) then 1 else 0
  }

  ghost function Announced(acts: seq<Action>, k: nat): nat
    requires k <= |acts|
  {
    if k == 0 then 0 else Announced(acts, k - 1) + if acts[k - 1] == ScanAnnounce then 1 else 0
  }

  /** Announcements still to come: one by a scan goroutine that holds the token, the others by
      goroutines past it. */
  function ToAnnounce(c: Scans): nat {
    c.announcing + if c.releasing == Freeing(true) then 1 else 0
  }

  lemma {:induction false} ToAnnounceStep(m: State, a: Action)
    requires Inv(m) && Enabled(m, a)
    ensures ToAnnounce(Apply(m, a).scans) == ToAnnounce(m.scans) +
                                             (if FinishesWell(m, a) then 1 else 0) - (if a == ScanAnnounce then 1 else 0)
  {
    hide SourcesInv, ScansInv, EnrichmentInv, Worked, Triggered, Fence, SwitchTo, PutBack;
    TokenStep(m, a);
  }

  /** In every run each scan that ends well is announced to the enricher exactly once, sooner or
      later; one that is stale, cancelled or cut off by the close never is. */
  lemma {:induction false} EveryScanIsAnnouncedOnce(ms: seq<State>, acts: seq<Action>, k: nat)
    requires Run(ms, acts) && k <= |acts|
    ensures WellFinished(ms, acts, k) ==
            Announced(acts, k) + ms[k].scans.announcing + (if ms[k].scans.releasing == Freeing(true) then 1 else 0)
  {
    hide Inv, Apply, Enabled, FinishesWell;
    if k > 0 {
      EveryScanIsAnnouncedOnce(ms, acts, k - 1);
      InvAlong(ms, acts, k - 1);
      RunStep(ms, acts, k - 1);
      ToAnnounceStep(ms[k - 1], acts[k - 1]);
    } else {
      assert Initial(ms[0]);
    }
  }

  /** A Run is due: announced, or asked for and not started yet. */
  predicate RunDue(m: State) {
    ToAnnounce(m.scans) > 0 || m.enrichment.runOwed
  }

  lemma {:induction false} RunStaysDue(m: State, a: Action)
    requires Inv(m) && Enabled(m, a) && a != SetEnricher(false) && m.enrichment.enricher && !Apply(m, a).closed
    requires RunDue(m) || FinishesWell(m, a)
    ensures Apply(m, a).enrichment.enricher && !m.closed && (RunDue(Apply(m, a)) || StartsRun(m, a))
  {
    hide Inv, StartsRun, FinishesWell;
    ToAnnounceStep(m, a);
    DebtsPersist(m, a);
    EnricherStays(m, a);
    if a == ScanAnnounce {
      AnnouncementOwes(m);
    }
    hide Apply, Enabled;
  }

  lemma {:induction false} EnricherStays(m: State, a: Action)
    requires Enabled(m, a) && a != SetEnricher(false) && m.enrichment.enricher
    ensures Apply(m, a).enrichment.enricher && (m.closed ==> Apply(m, a).closed)
  {
    hide ScanStarted, StartOrPend, FinishScan, SwitchTo, Fence, PutBack, JobCurrent, InsideStep, OutsideStep;
    if a.WorkerStep? {
      WorkerKeepsEnricher(m.enrichment, m.closed, a.ok);
    }
  }

  lemma {:induction false} WorkerKeepsEnricher(e: Enrichment, closed: bool, ok: bool)
    ensures Worked(e, closed, ok).enricher == e.enricher
  {
    hide InsideStep, OutsideStep;
    if HoldsToken(e.worker) {
      InsideKeepsEnricher(e, closed, ok);
    } else {
      OutsideKeepsEnricher(e, closed, ok);
    }
  }

  lemma {:induction false} InsideKeepsEnricher(e: Enrichment, closed: bool, ok: bool)
    requires HoldsToken(e.worker)
    ensures InsideStep(e, closed, ok).enricher == e.enricher
  {
    hide TryArtists, TryAlbums, DecideRun;
    if e.worker.ResetArtists? {
      ArtistsTried(e, ok);
    } else if e.worker.ResetAlbums? {
      AlbumsKeepEnricher(e, ok);
    } else if e.worker.Decide? {
      Decided(e, closed);
    }
  }

  lemma {:induction false} OutsideKeepsEnricher(e: Enrichment, closed: bool, ok: bool)
    requires !HoldsToken(e.worker)
    ensures OutsideStep(e, closed, ok).enricher == e.enricher
  {
    hide TakeOver, LoopOrStop;
    if e.worker.Top? {
      TakeOverKeepsEnricher(e, closed);
    } else if e.worker.After? {
      LoopKeepsEnricher(e, closed);
    }
  }

  lemma {:induction false} AlbumsKeepEnricher(e: Enrichment, ok: bool)
    requires e.worker.ResetAlbums?
    ensures TryAlbums(e, ok).enricher == e.enricher
  {
  }

  lemma {:induction false} TakeOverKeepsEnricher(e: Enrichment, closed: bool)
    requires e.worker.Top?
    ensures TakeOver(e, closed).enricher == e.enricher
  {
  }

  lemma {:induction false} LoopKeepsEnricher(e: Enrichment, closed: bool)
    requires e.worker.After?
    ensures LoopOrStop(e, closed).enricher == e.enricher
  {
  }

  lemma {:induction false} AnnouncementOwes(m: State)
    requires Enabled(m, ScanAnnounce) && !m.closed && m.enrichment.enricher
    ensures Apply(m, ScanAnnounce).enrichment.runOwed
  {
  }

  lemma {:induction false} DueUntilRun(ms: seq<State>, acts: seq<Action>, i: nat, k: nat)
    requires Run(ms, acts) && i < k <= |acts| && EnricherKept(acts, i, k) && !ms[k].closed
    requires FinishesWell(ms[i], acts[i]) && ms[i].enrichment.enricher
    ensures ms[k].enrichment.enricher
    ensures RunDue(ms[k]) || exists j :: i <= j < k && StartsRun(ms[j], acts[j])
  {
    hide Inv, Apply, Enabled, FinishesWell, StartsRun, RunDue;
    InvAlong(ms, acts, k - 1);
    RunStep(ms, acts, k - 1);
    assert acts[k - 1] != SetEnricher(false);
    CloseIsFinal(ms[k - 1], acts[k - 1]);
    if i < k - 1 {
      DueUntilRun(ms, acts, i, k - 1);
    }
    if i == k - 1 || RunDue(ms[k - 1]) {
      RunStaysDue(ms[k - 1], acts[k - 1]);
    } else {
      EnricherStays(ms[k - 1], acts[k - 1]);
    }
  }

  lemma {:induction false} CloseIsFinal(m: State, a: Action)
    requires Enabled(m, a)
    ensures m.closed ==> Apply(m, a).closed
  {
    hide ScanStarted, StartOrPend, FinishScan, SwitchTo, Fence, PutBack, JobCurrent, Worked;
  }

  /** A Run follows every scan that ends well: once its announcement is made and the enrichment
      goroutine has stopped, on an open manager whose enricher was set throughout, a Run has
      started since. */
  lemma {:induction false} RunFollowsScan(ms: seq<State>, acts: seq<Action>, i: nat, k: nat)
    requires Run(ms, acts) && i < k <= |acts| && (forall j :: i <= j < k ==> acts[j] != SetEnricher(false))
    requires acts[i] == ScanFinish(false) && ms[i].scans.scan.Working? && !ms[i].closed && ms[i].enrichment.enricher
    requires var job, now := ms[i].scans.scan.job, ms[i].sources;
             now.source == Some(job.source) && now.sourceId == job.sourceId && now.generation == job.generation
    requires !ms[k].closed && ms[k].scans.releasing == NotReleasing && ms[k].scans.announcing == 0
    requires ms[k].enrichment.worker == NoWorker
    ensures exists j :: i <= j < k && ms[j].enrichment.worker.Decide? && ms[j + 1].enrichment.worker == Running
  {
    hide Inv, Apply, Enabled, StartsRun;
    DueUntilRun(ms, acts, i, k);
    WorkIsAttended(ms, acts, k);
    var j :| i <= j < k && StartsRun(ms[j], acts[j]);
    RunStep(ms, acts, j);
    StartedRun(ms[j], acts[j]);
  }

  // ---------------------------------------------------------------------
  // Progress

  /** A bound on the worker's own steps before its next Run starts, when resets succeed and no
      further trigger arrives. */
  function RunDistance(e: Enrichment): nat {
    var again := e.artists || e.albums;
    match e.worker
    case NoWorker => 0
    case Top => 5
    case Acquire(_, _) => if again then 12 else 4
    case ResetArtists(_, _) => if again then 11 else 3
    case ResetAlbums(_, failed) => if again || failed then 10 else 2
    case Decide(failed) => if again || failed then 9 else 1
    case Running => 9
    case Release(more, _) => if more then 6 else 8
    case After(_) => 7
    case Backoff => 6
  }

  lemma {:induction false} OutsideDraws(e: Enrichment)
    requires EnrichmentInv(e, false) && e.runOwed && !HoldsToken(e.worker)
    ensures RunDistance(OutsideStep(e, false, true)) < RunDistance(e)
  {
  }

  lemma {:induction false} InsideDraws(e: Enrichment)
    requires EnrichmentInv(e, false) && e.runOwed && HoldsToken(e.worker) && !RunStarts(e, false)
    ensures RunDistance(InsideStep(e, false, true)) < RunDistance(e)
  {
    if e.worker.ResetArtists? {
    } else if e.worker.ResetAlbums? {
    } else if e.worker.Decide? {
    }
  }

  /** What the manager does on its own, without new requests: worker steps whose resets
      succeed, and scans that finish and give the token back. */
  predicate Own(a: Action) {
    a == WorkerStep(true) || a == ScanFinish(false) || a == ScanRelease
  }

  /** Performing `acts` one after the other leads from m to n. */
  ghost predicate Leads(m: State, acts: seq<Action>, n: State)
    decreases |acts|
  {
    if acts == [] then m == n else Enabled(m, acts[0]) && Leads(Apply(m, acts[0]), acts[1..], n)
  }

  /** How far the token is from being free. */
  function ScanDistance(c: Scans): nat {
    2 * Count(c.scan.Working?) + Count(c.releasing.Freeing?)
  }

  /** The next of the manager's own steps on the way to a Run. */
  function NextOwn(m: State): Action {
    if m.enrichment.worker.Acquire? && !m.token then if m.scans.scan.Working? then ScanFinish(false) else ScanRelease
    else WorkerStep(true)
  }

  lemma {:induction false} WorkerDraws(m: State)
    requires Inv(m) && !m.closed && m.enrichment.runOwed && !StartsRun(m, WorkerStep(true)) && NextOwn(m) == WorkerStep(true)
    ensures Enabled(m, NextOwn(m))
    ensures var n := Apply(m, NextOwn(m)); !n.closed && n.scans == m.scans && RunDistance(n.enrichment) < RunDistance(m.enrichment)
  {
    hide ScansInv, SourcesInv, Holders, RunDistance, InsideStep, OutsideStep, RunStarts, ResetInv;
    if HoldsToken(m.enrichment.worker) {
      InsideDraws(m.enrichment);
    } else {
      OutsideDraws(m.enrichment);
    }
  }

  lemma {:induction false} ScanDraws(m: State)
    requires Inv(m) && !m.closed && NextOwn(m) != WorkerStep(true)
    ensures Enabled(m, NextOwn(m))
    ensures var n := Apply(m, NextOwn(m)); !n.closed && n.enrichment == m.enrichment && ScanDistance(n.scans) < ScanDistance(m.scans)
  {
    hide EnrichmentInv, SourcesInv, JobInv;
  }

  /** Progress: from every reachable open state with an unanswered trigger, the manager's own
      steps, at most 14 of them, lead to the start of a Run. */
  lemma {:induction false} RunArrives(m: State) returns (acts: seq<Action>, n: State)
    requires Inv(m) && !m.closed && m.enrichment.runOwed
    ensures Leads(m, acts, n) && StartsRun(n, WorkerStep(true)) && !n.closed
    ensures n.enrichment.worker.Decide? && Enabled(n, WorkerStep(true)) && Apply(n, WorkerStep(true)).enrichment.worker == Running
    ensures forall k :: 0 <= k < |acts| ==> Own(acts[k])
    ensures |acts| <= RunDistance(m.enrichment) + ScanDistance(m.scans) <= 14
    decreases RunDistance(m.enrichment) + ScanDistance(m.scans)
  {
    hide Inv, Apply, Enabled, RunDistance, ScanDistance, RunStarts;
    DistanceBound(m);
    if StartsRun(m, WorkerStep(true)) {
      acts, n := [], m;
      RunEnabled(n);
      StartedRun(n, WorkerStep(true));
    } else {
      var a := NextOwn(m);
      if a == WorkerStep(true) {
        WorkerDraws(m);
      } else {
        ScanDraws(m);
      }
      var next := Apply(m, a);
      DebtsPersist(m, a);
      InvStep(m, a);
      var rest;
      rest, n := RunArrives(next);
      acts := [a] + rest;
      assert acts[1..] == rest;
    }
  }

  lemma {:induction false} RunEnabled(m: State)
    requires StartsRun(m, WorkerStep(true))
    ensures Enabled(m, WorkerStep(true))
  {
  }

  lemma {:induction false} DistanceBound(m: State)
    requires Inv(m)
    ensures RunDistance(m.enrichment) + ScanDistance(m.scans) <= 14
  {
    hide ScansInv, SourcesInv, EnrichmentInv;
  }

  // ---------------------------------------------------------------------
  // The manager itself

  lemma {:induction false} NothingTriggered(e: Enrichment, closed: bool, a: bool, b: bool)
    requires closed || !e.enricher
    ensures Triggered(e, closed, a, b) == e
  {
  }

  lemma {:induction false} SwitchedIn(s: Sources, root: int)
    ensures SwitchTo(s, root).source.Some?
  {
  }

  // Single actions of Apply.

  lemma {:induction false} WorkerStepApplied(m: State, ok: bool)
    requires Enabled(m, WorkerStep(ok))
    ensures Apply(m, WorkerStep(ok)) ==
            m.(enrichment := Worked(m.enrichment, m.closed, ok), token := TokenAfter(m.enrichment.worker, m.token, m.closed))
  {
    hide Worked, TokenAfter;
  }

  lemma {:induction false} TriggerApplied(m: State, artists: bool, albums: bool)
    ensures Apply(m, Trigger(artists, albums)) == m.(enrichment := Triggered(m.enrichment, m.closed, artists, albums))
  {
    hide Triggered;
  }

  lemma {:induction false} EnricherApplied(m: State, on: bool)
    ensures Apply(m, SetEnricher(on)) == m.(enrichment := EnricherSet(m.enrichment, on))
  {
    hide EnricherSet;
  }

  lemma {:induction false} UnlinkFailedApplied(m: State)
    requires m.sources.unlinking.Fenced?
    ensures Apply(m, UnlinkFailed) == AfterUnlinkFailed(m)
  {
    hide AfterUnlinkFailed;
  }

  lemma {:induction false} ConfigureApplied(m: State, root: int)
    requires m.sources.unlinking.NotUnlinking? && !m.closed
    ensures SwitchTo(m.sources, root).source.Some?
    ensures Apply(m, Configure(root)) ==
            m.(sources := SwitchTo(m.sources, root), scans := StartOrPend(m.scans, SwitchTo(m.sources, root)))
  {
    hide StartOrPend;
  }

  lemma {:induction false} ReleaseApplied(m: State)
    requires m.scans.releasing.Freeing?
    ensures Apply(m, ScanRelease) ==
            m.(token := true,
               scans := m.scans.(releasing := NotReleasing, announcing := m.scans.announcing + Count(m.scans.releasing.announce)))
  {
    hide Count;
  }

  /** library.Manager. Every method is one critical section, or one blocking step of a scan or
      enrichment goroutine, and performs exactly the action of the model it is named after. */
  class Manager {
    var source: Option<int>
    var sourceId: int
    var generation: int
    var stored: Stored
    var unlinking: Unlinking
    var nextSource: int
    var nextId: int
    var scanning: bool
    var scanPending: bool
    var scan: Scan
    var releasing: Releasing
    var announcing: nat
    var enricher: bool
    var enriching: bool
    var enrichmentPending: bool
    var resetArtists: bool
    var resetAlbums: bool
    var worker: Worker
    var operation: bool
    var closed: bool
    var epoch: nat
    ghost var scannedEpoch: nat
    ghost var writes: seq<(nat, nat)>
    ghost var runOwed: bool
    ghost var artistsOwed: bool
    ghost var albumsOwed: bool

    ghost function SourcesView(): Sources
      reads this`source, this`sourceId, this`generation, this`stored, this`unlinking, this`nextSource, this`nextId, this`epoch
    {
      Sources(source, sourceId, generation, stored, unlinking, nextSource, nextId, epoch)
    }

    ghost function ScansView(): Scans
      reads this`scanning, this`scanPending, this`scan, this`releasing, this`announcing, this`scannedEpoch, this`writes
    {
      Scans(scanning, scanPending, scan, releasing, announcing, scannedEpoch, writes)
    }

    ghost function EnrichmentView(): Enrichment
      reads this`enricher, this`enriching, this`enrichmentPending, this`resetArtists, this`resetAlbums, this`worker, this`runOwed,
        this`artistsOwed, this`albumsOwed
    {
      Enrichment(enricher, enriching, enrichmentPending, resetArtists, resetAlbums, worker, runOwed, artistsOwed, albumsOwed)
    }

    ghost function View(): State
      reads this
    {
      State(SourcesView(), ScansView(), EnrichmentView(), operation, closed)
    }

    /** NewManager, with the source restored from the store, if there is one. */
    constructor (restored: Option<int>, remembered: Stored)
      ensures Inv(View()) && Initial(View())
      ensures stored == remembered && (source.Some? <==> restored.Some?) && nextId == remembered.sourceId + 1
      ensures restored.Some? ==> sourceId == remembered.sourceId && generation == remembered.generation
      ensures operation && !closed && !scanning && !scanPending && scan == NoScan && worker == NoWorker && !enriching && !enricher
    {
      stored := remembered;
      source := if restored.Some? then Some(0) else None;
      sourceId := if restored.Some? then remembered.sourceId else 0;
      generation := if restored.Some? then remembered.generation else 0;
      unlinking := NotUnlinking;
      nextSource, nextId := 1, 1 + remembered.sourceId;
      scanning, scanPending, scan, releasing, announcing := false, false, NoScan, NotReleasing, 0;
      enricher, enriching, enrichmentPending, resetArtists, resetAlbums := false, false, false, false, false;
      worker, operation, closed := NoWorker, true, false;
      epoch, scannedEpoch, writes := 0, 0, [];
      runOwed, artistsOwed, albumsOwed := false, false, false;
    }

    method SetEnricher(on: bool)
      modifies this`enricher, this`runOwed, this`artistsOwed, this`albumsOwed
      ensures View() == Apply(old(View()), Action.SetEnricher(on))
      ensures enricher == on
    {
      hide Apply, SourcesView, ScansView, EnrichmentView, EnricherSet;
      EnricherApplied(View(), on);
      PutEnricher(on);
    }

    method PutEnricher(on: bool)
      modifies this`enricher, this`runOwed, this`artistsOwed, this`albumsOwed
      ensures EnrichmentView() == EnricherSet(old(EnrichmentView()), on)
      ensures enricher == on
    {
      enricher := on;
      runOwed, artistsOwed, albumsOwed := on && runOwed, on && artistsOwed, on && albumsOwed;
    }

    method TriggerEnrichment(artists: bool, albums: bool)
      modifies this`enriching, this`enrichmentPending, this`resetArtists, this`resetAlbums, this`worker, this`runOwed,
        this`artistsOwed, this`albumsOwed
      ensures View() == Apply(old(View()), Trigger(artists, albums))
      ensures closed || !enricher ==> View() == old(View())
      ensures !closed && enricher ==>
                && enrichmentPending && enriching && worker == (if old(enriching) then old(worker) else Top)
                && resetArtists == (old(resetArtists) || artists) && resetAlbums == (old(resetAlbums) || albums)
    {
      hide Triggered, Apply, Enabled, SourcesView, ScansView;
      TriggerApplied(View(), artists, albums);
      if closed || !enricher {
        NothingTriggered(EnrichmentView(), closed, artists, albums);
        return;
      }
      Request(artists, albums);
    }

    method Request(artists: bool, albums: bool)
      requires !closed && enricher
      modifies this`enriching, this`enrichmentPending, this`resetArtists, this`resetAlbums, this`worker, this`runOwed,
        this`artistsOwed, this`albumsOwed
      ensures EnrichmentView() == Triggered(old(EnrichmentView()), closed, artists, albums)
      ensures enrichmentPending && enriching && worker == (if old(enriching) then old(worker) else Top)
      ensures resetArtists == (old(resetArtists) || artists) && resetAlbums == (old(resetAlbums) || albums)
    {
      NoteRequest(artists, albums);
      if !enriching {
        enriching := true;
        worker := Top;
      }
    }

    method NoteRequest(artists: bool, albums: bool)
      modifies this`enrichmentPending, this`resetArtists, this`resetAlbums, this`runOwed, this`artistsOwed, this`albumsOwed
      ensures EnrichmentView() ==
                old(EnrichmentView()).(pending := true, artists := old(resetArtists) || artists, albums := old(resetAlbums) || albums,
                                       runOwed := true, artistsOwed := old(artistsOwed) || artists,
                                       albumsOwed := old(albumsOwed) || albums)
    {
      enrichmentPending := true;
      resetArtists := resetArtists || artists;
      resetAlbums := resetAlbums || albums;
      runOwed, artistsOwed, albumsOwed := true, artistsOwed || artists, albumsOwed || albums;
    }

    method StartScan()
      requires source.Some?
      modifies this`scanning, this`scan, this`scannedEpoch
      ensures ScansView() == ScanStarted(old(ScansView()), SourcesView())
      ensures scanning && scan == Waiting(Job(source.value, sourceId, generation, epoch))
    {
      scanning := true;
      scan := Waiting(Job(source.value, sourceId, generation, epoch));
      scannedEpoch := epoch;
    }

    /** The store transaction and the switch to a new source object. */
    method SwitchSource(root: int)
      modifies this`source, this`sourceId, this`generation, this`stored, this`nextSource, this`nextId, this`epoch
      ensures SourcesView() == SwitchTo(old(SourcesView()), root) && source.Some?
      ensures if old(stored.root) != Some(root) || old(stored.sourceId) == 0 then
                stored.root == Some(root) && stored.sourceId == old(nextId) && stored.generation == old(stored.generation) + 1
              else stored == old(stored)
      ensures source == Some(old(nextSource)) && nextSource == old(nextSource) + 1
      ensures sourceId == stored.sourceId && generation == stored.generation
    {
      if stored.root != Some(root) || stored.sourceId == 0 {
        stored := Stored(Some(root), nextId, stored.generation + 1);
      }
      source := Some(nextSource);
      sourceId := stored.sourceId;
      generation := stored.generation;
      nextSource, nextId := nextSource + 1, nextId + 1;
      epoch := epoch + 1;
    }

    method StartOrPendScan()
      requires source.Some?
      modifies this`scanning, this`scanPending, this`scan, this`scannedEpoch
      ensures ScansView() == StartOrPend(old(ScansView()), SourcesView())
      ensures if old(scanning) then scanPending && scan == old(scan)
              else scanPending == old(scanPending) && scan == Waiting(Job(source.value, sourceId, generation, epoch))
      ensures scanning
    {
      if scanning {
        scanPending := true;
      } else {
        StartScan();
      }
    }

    /** Under the manager's lock once the path has been checked; sourceConfig excludes an Unlink
        in progress. A closed manager and a store that fails leave everything as it was. */
    method Configure(root: int, storeFails: bool) returns (accepted: bool)
      requires unlinking.NotUnlinking?
      modifies this`source, this`sourceId, this`generation, this`stored, this`nextSource, this`nextId, this`epoch,
        this`scanning, this`scanPending, this`scan, this`scannedEpoch
      ensures accepted <==> !old(closed) && !storeFails
      ensures View() == if accepted then Apply(old(View()), Action.Configure(root)) else old(View())
      ensures accepted ==>
                && stored.root == Some(root) && source == Some(old(nextSource))
                && sourceId == stored.sourceId && generation == stored.generation
                && stored == (if old(stored.root) != Some(root) || old(stored.sourceId) == 0
                              then Stored(Some(root), old(nextId), old(stored.generation) + 1) else old(stored))
      ensures accepted ==>
                && scanning && nextSource == old(nextSource) + 1
                && (if old(scanning) then scanPending && scan == old(scan)
                    else scan == Waiting(Job(source.value, sourceId, generation, epoch)))
    {
      hide Apply;
      accepted := !closed && !storeFails;
      if !accepted {
        return;
      }
      SwitchAndScan(root);
    }

    method SwitchAndScan(root: int)
      requires unlinking.NotUnlinking? && !closed
      modifies this`source, this`sourceId, this`generation, this`stored, this`nextSource, this`nextId, this`epoch,
        this`scanning, this`scanPending, this`scan, this`scannedEpoch
      ensures View() == Apply(old(View()), Action.Configure(root))
      ensures source.Some?
      ensures if old(stored.root) != Some(root) || old(stored.sourceId) == 0 then
                stored.root == Some(root) && stored.sourceId == old(nextId) && stored.generation == old(stored.generation) + 1
              else stored == old(stored)
      ensures source == Some(old(nextSource)) && nextSource == old(nextSource) + 1
      ensures sourceId == stored.sourceId && generation == stored.generation
      ensures if old(scanning) then scanPending && scan == old(scan)
              else scanPending == old(scanPending) && scan == Waiting(Job(source.value, sourceId, generation, epoch))
      ensures scanning
    {
      hide StartOrPend, SwitchTo, Apply, Enabled;
      ConfigureApplied(View(), root);
      hide SourcesView, ScansView, EnrichmentView;
      SwitchedIn(SourcesView(), root);
      SwitchSource(root);
      StartOrPendScan();
    }

    method FenceSource()
      modifies this`source, this`sourceId, this`generation, this`unlinking, this`epoch
      ensures SourcesView() == Fence(old(SourcesView()))
      ensures source == None && sourceId == 0 && generation == old(generation) + 1
      ensures unlinking == Fenced(old(source), old(sourceId), old(generation) + 1)
    {
      generation := generation + 1;
      unlinking := Fenced(source, sourceId, generation);
      source := None;
      sourceId := 0;
      epoch := epoch + 1;
    }

    /** Unlink up to its store transaction: fence every live scan, unless the manager is closed. */
    method BeginUnlink() returns (accepted: bool)
      requires unlinking.NotUnlinking?
      modifies this`source, this`sourceId, this`generation, this`unlinking, this`epoch, this`scanPending
      ensures accepted <==> !old(closed)
      ensures View() == if accepted then Apply(old(View()), UnlinkFence) else old(View())
      ensures accepted ==> source == None && sourceId == 0 && generation == old(generation) + 1 && !scanPending
      ensures accepted ==> unlinking == Fenced(old(source), old(sourceId), old(generation) + 1)
    {
      hide Fence;
      accepted := !closed;
      if !accepted {
        return;
      }
      FenceSource();
      scanPending := false;
    }

    /** Unlink after its store transaction committed. */
    method CommitUnlink()
      requires unlinking.Fenced?
      modifies this`generation, this`stored, this`unlinking
      ensures View() == Apply(old(View()), UnlinkCommit)
      ensures unlinking == NotUnlinking && stored == Stored(None, 0, old(stored.generation) + 1)
      ensures generation == old(stored.generation) + 1
    {
      unlinking := NotUnlinking;
      stored := Stored(None, 0, stored.generation + 1);
      generation := stored.generation;
    }

    method RestoreSource()
      requires unlinking.Fenced?
      modifies this`source, this`sourceId, this`generation, this`unlinking
      ensures SourcesView() == PutBack(old(SourcesView()))
      ensures unlinking == NotUnlinking && source == old(unlinking.source)
      ensures sourceId == old(unlinking.sourceId) && generation == old(unlinking.generation)
    {
      source, sourceId, generation := unlinking.source, unlinking.sourceId, unlinking.generation;
      unlinking := NotUnlinking;
    }

    /** Unlink after its store transaction failed. */
    method AbandonUnlink()
      requires unlinking.Fenced?
      modifies this`source, this`sourceId, this`generation, this`unlinking, this`scanning, this`scanPending, this`scan,
        this`scannedEpoch
      ensures View() == Apply(old(View()), UnlinkFailed)
      ensures unlinking == NotUnlinking
      ensures closed ==> SourcesView() == old(SourcesView()).(unlinking := NotUnlinking) && ScansView() == old(ScansView())
      ensures !closed ==>
                && source == old(unlinking.source) && sourceId == old(unlinking.sourceId) && generation == old(unlinking.generation)
                && (source == None ==> ScansView() == old(ScansView()))
                && (source != None ==> scanning &&
                                       if old(scanning) then scanPending && scan == old(scan)
                                       else scan == Waiting(Job(source.value, sourceId, generation, epoch)))
    {
      hide PutBack, StartOrPend, Apply, Enabled, EnrichmentView;
      UnlinkFailedApplied(View());
      if closed {
        unlinking := NotUnlinking;
        return;
      }
      RestoreSource();
      if source.Some? {
        StartOrPendScan();
      }
    }

    method Rescan() returns (accepted: bool)
      modifies this`scanning, this`scan, this`scannedEpoch
      ensures View() == Apply(old(View()), Action.Rescan)
      ensures accepted <==> !closed && source != None
      ensures if accepted && !old(scanning) then scanning && scan == Waiting(Job(source.value, sourceId, generation, epoch))
              else scanning == old(scanning) && scan == old(scan)
    {
      hide Worked, Triggered, FinishScan, SwitchTo, TokenAfter, Fence, AfterUnlinkFailed, StartOrPend;
      accepted := !closed && source.Some?;
      if accepted && !scanning {
        StartScan();
      }
    }

    method Close()
      modifies this`closed
      ensures View() == Apply(old(View()), Action.Close)
      ensures closed
    {
      closed := true;
    }

    method AcquireForScan()
      requires scan.Waiting? && operation && !closed
      modifies this`operation, this`scan
      ensures View() == Apply(old(View()), ScanAcquire)
      ensures !operation && scan == Working(old(scan.job))
    {
      operation := false;
      scan := Working(scan.job);
    }

    /** withCurrentSource around a catalog write. */
    method WriteIfCurrent() returns (wrote: bool)
      requires scan.Working?
      modifies this`writes
      ensures View() == Apply(old(View()), ScanWrite)
      ensures wrote <==> source == Some(scan.job.source) && sourceId == scan.job.sourceId && generation == scan.job.generation && !closed
      ensures writes == if wrote then old(writes) + [(scan.job.epoch, epoch)] else old(writes)
    {
      wrote := source == Some(scan.job.source) && sourceId == scan.job.sourceId && generation == scan.job.generation && !closed;
      if wrote {
        writes := writes + [(scan.job.epoch, epoch)];
      }
    }

    method FinishScanJob(canceled: bool)
      requires scan.Working? || (scan.Waiting? && closed)
      modifies this`scanning, this`scanPending, this`scan, this`releasing, this`scannedEpoch
      ensures View() == Apply(old(View()), ScanFinish(canceled))
      ensures var stale := old(source != Some(scan.job.source) || sourceId != scan.job.sourceId || generation != scan.job.generation);
              && (old(scan.Working?) ==> releasing == Freeing(!stale && !closed && !canceled))
              && (old(scan.Waiting?) ==> releasing == old(releasing))
              && (if stale && old(scanPending) && source.Some? && !closed
                  then scanning && !scanPending && scan == Waiting(Job(source.value, sourceId, generation, epoch))
                  else !scanning && scan == NoScan && scanPending == old(scanPending))
    {
      hide FinishScan, JobCurrent;
      Bookkeep(canceled);
    }

    method Bookkeep(canceled: bool)
      requires !scan.NoScan?
      modifies this`scanning, this`scanPending, this`scan, this`releasing, this`scannedEpoch
      ensures ScansView() == FinishScan(old(ScansView()), SourcesView(), closed, canceled)
      ensures var stale := old(source != Some(scan.job.source) || sourceId != scan.job.sourceId || generation != scan.job.generation);
              && (old(scan.Working?) ==> releasing == Freeing(!stale && !closed && !canceled))
              && (old(scan.Waiting?) ==> releasing == old(releasing))
              && (if stale && old(scanPending) && source.Some? && !closed
                  then scanning && !scanPending && scan == Waiting(Job(source.value, sourceId, generation, epoch))
                  else !scanning && scan == NoScan && scanPending == old(scanPending))
    {
      var stale := !(source == Some(scan.job.source) && sourceId == scan.job.sourceId && generation == scan.job.generation);
      if scan.Working? {
        releasing := Freeing(!stale && !closed && !canceled);
      }
      if stale && scanPending && source.Some? && !closed {
        scanPending := false;
        StartScan();
      } else {
        scanning := false;
        scan := NoScan;
      }
    }

    method ReleaseAfterScan()
      requires releasing.Freeing?
      modifies this`operation, this`releasing, this`announcing
      ensures View() == Apply(old(View()), ScanRelease)
      ensures operation && releasing == NotReleasing && announcing == old(announcing) + if old(releasing) == Freeing(true) then 1 else 0
    {
      hide Apply, Enabled, SourcesView, EnrichmentView;
      ReleaseApplied(View());
      operation := true;
      if releasing.announce {
        announcing := announcing + 1;
      }
      releasing := NotReleasing;
    }

    /** One step of the loop of runEnrichment; `ok` is the outcome of a reset or of the wait
        before it is retried. */
    method EnrichmentStep(ok: bool)
      requires !worker.NoWorker? && (worker.Acquire? ==> operation || closed) && (worker.Backoff? ==> ok || closed)
      modifies this`enriching, this`enrichmentPending, this`resetArtists, this`resetAlbums, this`worker, this`operation,
        this`runOwed, this`artistsOwed, this`albumsOwed
      ensures View() == Apply(old(View()), WorkerStep(ok))
      ensures old(worker.Top?) && closed ==> !enriching && worker == NoWorker
      ensures old(worker.Top?) && !closed ==>
                && !enrichmentPending && !resetArtists && !resetAlbums
                && worker == if enricher then Acquire(old(resetArtists), old(resetAlbums)) else NoWorker
      ensures old(worker.Acquire?) ==>
                worker == (if closed then NoWorker else ResetArtists(old(worker.a), old(worker.b))) && operation == (closed && old(operation))
      ensures old(worker.After?) ==>
                worker == if closed then NoWorker else if old(worker.failed) then Backoff
                          else if old(enrichmentPending || resetArtists || resetAlbums) then Top else NoWorker
      ensures old(worker.Backoff?) ==> worker == if ok then Top else NoWorker
      ensures old(worker.ResetArtists?) ==>
                var fails := old(worker.a) && !ok;
                worker == ResetAlbums(old(worker.b), fails) && resetArtists == (old(resetArtists) || fails)
      ensures old(worker.ResetAlbums?) ==>
                var fails := old(worker.b) && !ok;
                worker == Decide(old(worker.failed) || fails) && resetAlbums == (old(resetAlbums) || fails)
      ensures old(worker.Decide?) ==>
                worker == if !old(worker.failed || resetArtists || resetAlbums) && !closed then Running
                          else Release(!old(worker.failed) && old(resetArtists || resetAlbums), old(worker.failed))
      ensures old(worker.Running?) ==> worker == Release(false, false)
      ensures old(worker.Release?) ==> operation && worker == if old(worker.more) then Top else After(old(worker.failed))
    {
      hide InsideStep, OutsideStep, TokenAfter, SourcesView, ScansView, Apply;
      WorkerStepApplied(View(), ok);
      if HoldsToken(worker) {
        StepInside(ok);
      } else {
        StepOutside(ok);
      }
    }

    method StepOutside(ok: bool)
      requires !HoldsToken(worker)
      modifies this`enriching, this`enrichmentPending, this`resetArtists, this`resetAlbums, this`worker, this`operation
      ensures EnrichmentView() == OutsideStep(old(EnrichmentView()), closed, ok)
      ensures old(worker.Top?) && closed ==> !enriching && worker == NoWorker
      ensures old(worker.Top?) && !closed ==>
                && !enrichmentPending && !resetArtists && !resetAlbums
                && worker == if enricher then Acquire(old(resetArtists), old(resetAlbums)) else NoWorker
      ensures old(worker.Acquire?) ==>
                worker == (if closed then NoWorker else ResetArtists(old(worker.a), old(worker.b))) && operation == (closed && old(operation))
      ensures old(worker.After?) ==>
                worker == if closed then NoWorker else if old(worker.failed) then Backoff
                          else if old(enrichmentPending || resetArtists || resetAlbums) then Top else NoWorker
      ensures old(worker.Backoff?) ==> worker == if ok then Top else NoWorker
      ensures operation == TokenAfter(old(worker), old(operation), closed)
    {
      hide TakeOver, LoopOrStop;
      if worker.Top? {
        TakeOverRequests();
      } else if worker.Acquire? && !closed {
        operation := false;
        worker := ResetArtists(worker.a, worker.b);
      } else if worker.After? {
        LoopAgain();
      } else if worker.Backoff? && ok {
        worker := Top;
      } else {
        enriching, worker := false, NoWorker;
      }
    }

    method TakeOverRequests()
      requires worker.Top?
      modifies this`enriching, this`enrichmentPending, this`resetArtists, this`resetAlbums, this`worker
      ensures EnrichmentView() == TakeOver(old(EnrichmentView()), closed)
      ensures if closed then !enriching && worker == NoWorker && enrichmentPending == old(enrichmentPending) &&
                             resetArtists == old(resetArtists) && resetAlbums == old(resetAlbums)
              else !enrichmentPending && !resetArtists && !resetAlbums &&
                   if enricher then enriching == old(enriching) && worker == Acquire(old(resetArtists), old(resetAlbums))
                   else !enriching && worker == NoWorker
    {
      if closed {
        enriching, worker := false, NoWorker;
        return;
      }
      enrichmentPending := false;
      worker := Acquire(resetArtists, resetAlbums);
      resetArtists, resetAlbums := false, false;
      if !enricher {
        enriching, worker := false, NoWorker;
      }
    }

    method LoopAgain()
      requires worker.After?
      modifies this`enriching, this`worker
      ensures EnrichmentView() == LoopOrStop(old(EnrichmentView()), closed)
      ensures !closed && old(worker.failed) ==> worker == Backoff && enriching == old(enriching)
      ensures !closed && !old(worker.failed) && (enrichmentPending || resetArtists || resetAlbums) ==>
                worker == Top && enriching == old(enriching)
      ensures closed || !(old(worker.failed) || enrichmentPending || resetArtists || resetAlbums) ==> worker == NoWorker && !enriching
    {
      if !closed && worker.failed {
        worker := Backoff;
      } else if !closed && (enrichmentPending || resetArtists || resetAlbums) {
        worker := Top;
      } else {
        enriching, worker := false, NoWorker;
      }
    }

    method StepInside(ok: bool)
      requires HoldsToken(worker)
      modifies this`resetArtists, this`resetAlbums, this`worker, this`operation, this`runOwed, this`artistsOwed, this`albumsOwed
      ensures EnrichmentView() == InsideStep(old(EnrichmentView()), closed, ok)
      ensures old(worker.ResetArtists?) ==>
                var fails := old(worker.a) && !ok;
                worker == ResetAlbums(old(worker.b), fails) && resetArtists == (old(resetArtists) || fails)
      ensures old(worker.ResetAlbums?) ==>
                var fails := old(worker.b) && !ok;
                worker == Decide(old(worker.failed) || fails) && resetAlbums == (old(resetAlbums) || fails)
      ensures old(worker.Decide?) ==>
                worker == if !old(worker.failed || resetArtists || resetAlbums) && !closed then Running
                          else Release(!old(worker.failed) && old(resetArtists || resetAlbums), old(worker.failed))
      ensures old(worker.Running?) ==> worker == Release(false, false)
      ensures old(worker.Release?) ==> operation && worker == if old(worker.more) then Top else After(old(worker.failed))
      ensures operation == TokenAfter(old(worker), old(operation), closed)
    {
      hide TryArtists, TryAlbums, DecideRun;
      if worker.ResetArtists? {
        RunArtistsReset(ok);
      } else if worker.ResetAlbums? {
        RunAlbumsReset(ok);
      } else if worker.Decide? {
        DecideOnRun();
      } else if worker.Running? {
        worker := Release(false, false);
      } else {
        operation := true;
        worker := if worker.more then Top else After(worker.failed);
      }
    }

    method RunArtistsReset(ok: bool)
      requires worker.ResetArtists?
      modifies this`resetArtists, this`worker, this`artistsOwed
      ensures EnrichmentView() == TryArtists(old(EnrichmentView()), ok)
      ensures var fails := old(worker.a) && !ok;
              worker == ResetAlbums(old(worker.b), fails) && resetArtists == (old(resetArtists) || fails)
    {
      if worker.a && !ok {
        resetArtists := true;
        worker := ResetAlbums(worker.b, true);
      } else {
        artistsOwed := artistsOwed && (!worker.a || resetArtists);
        worker := ResetAlbums(worker.b, false);
      }
    }

    method RunAlbumsReset(ok: bool)
      requires worker.ResetAlbums?
      modifies this`resetAlbums, this`worker, this`albumsOwed
      ensures EnrichmentView() == TryAlbums(old(EnrichmentView()), ok)
      ensures var fails := old(worker.b) && !ok;
              worker == Decide(old(worker.failed) || fails) && resetAlbums == (old(resetAlbums) || fails)
    {
      if worker.b && !ok {
        resetAlbums := true;
        worker := Decide(true);
      } else {
        albumsOwed := albumsOwed && (!worker.b || resetAlbums);
        worker := Decide(worker.failed);
      }
    }

    method DecideOnRun()
      requires worker.Decide?
      modifies this`worker, this`runOwed
      ensures EnrichmentView() == DecideRun(old(EnrichmentView()), closed)
      ensures worker == if !old(worker.failed) && !resetArtists && !resetAlbums && !closed then Running
                        else Release(!old(worker.failed) && (resetArtists || resetAlbums), old(worker.failed))
    {
      var more := !worker.failed && (resetArtists || resetAlbums);
      if !worker.failed && !more && !closed {
        worker := Running;
        runOwed := false;
      } else {
        worker := Release(more, worker.failed);
      }
    }
  }
}
