/** The incremental filesystem scan (internal/library/scan.go, internal/store/source_file_cache.go,
    internal/store/library.go): a scan that reuses cached parses leaves the library exactly as a
    scan that parses every file would. Parsing is any function of the parser version and the
    file's fingerprint. */
module IncrementalScan {
  import opened Common

  /** A file as enumerated: its native id and its fingerprint. */
  datatype Candidate = Candidate(native: int, size: int, mtime: int)

  /** A cache row: the fingerprint and parser version it was parsed under, and the result. */
  datatype Entry = Entry(candidate: Candidate, version: int, meta: int)

  /** What LoadSourceFileCache hands to the scan. */
  datatype Loaded = Loaded(candidate: Candidate, canonicalExists: bool)

  /** A canonical track: the raw metadata last upserted for it, and its scan columns. */
  datatype Row = Row(raw: int, missing: bool, seenSeq: int, changeSeq: int)

  type Parser = (int, Candidate) -> Option<int>

  datatype Store = Store(tracks: map<int, Row>, cache: map<int, Entry>, counter: int)

  /** A scan under way: the tables so far and the two id sets it collects. */
  datatype Progress = Progress(tracks: map<int, Row>, cache: map<int, Entry>, seen: set<int>, encountered: set<int>)

  // ---------------------------------------------------------------------
  // The scan

  function LoadCache(st: Store, version: int): map<int, Loaded> {
    map n | n in st.cache && st.cache[n].version == version && st.cache[n].candidate.native == n ::
      Loaded(st.cache[n].candidate, n in st.tracks)
  }

  predicate Hit(loaded: map<int, Loaded>, c: Candidate) {
    c.native in loaded && loaded[c.native].canonicalExists && loaded[c.native].candidate == c
  }

  /** UpsertTrack: the row is present, seen, and stamped when it changed. */
  function Upserted(tracks: map<int, Row>, native: int, meta: int, stamp: int): map<int, Row> {
    var same := native in tracks && !tracks[native].missing && tracks[native].raw == meta;
    tracks[native := Row(meta, false, stamp, if same then tracks[native].changeSeq else stamp)]
  }

  /** One enumerated file. */
  function Visit(p: Progress, loaded: map<int, Loaded>, parse: Parser, version: int, stamp: int, c: Candidate): Progress {
    var q := p.(encountered := p.encountered + {c.native});
    if Hit(loaded, c) then q.(seen := q.seen + {c.native})
    else
      match parse(version, c)
      case None => q
      case Some(meta) =>
        q.(tracks := Upserted(q.tracks, c.native, meta, stamp), cache := q.cache[c.native := Entry(c, version, meta)],
           seen := q.seen + {c.native})
  }

  function VisitAll(p: Progress, loaded: map<int, Loaded>, parse: Parser, version: int, stamp: int, files: seq<Candidate>): Progress {
    if files == [] then p
    else Visit(VisitAll(p, loaded, parse, version, stamp, files[..|files| - 1]), loaded, parse, version, stamp, files[|files| - 1])
  }

  /** markTracksSeen, as one update. */
  function Marked(tracks: map<int, Row>, ids: set<int>, stamp: int): map<int, Row> {
    map n | n in tracks ::
      if n in ids then tracks[n].(missing := false, seenSeq := stamp, changeSeq := if tracks[n].missing then stamp else tracks[n].changeSeq)
      else tracks[n]
  }

  /** finishScan on tracks: rows not seen by this scan go missing. */
  function Finished(tracks: map<int, Row>, stamp: int): map<int, Row> {
    map n | n in tracks ::
      if tracks[n].seenSeq < stamp && !tracks[n].missing then tracks[n].(missing := true, changeSeq := stamp) else tracks[n]
  }

  function Pruned(cache: map<int, Entry>, encountered: set<int>): map<int, Entry> {
    map n | n in cache && n in encountered :: cache[n]
  }

  function Started(st: Store): Progress {
    Progress(st.tracks, st.cache, {}, {})
  }

  /** FinalizeSourceScan. */
  function Finalized(p: Progress, stamp: int): Store {
    Store(Finished(Marked(p.tracks, p.seen, stamp), stamp), Pruned(p.cache, p.encountered), stamp)
  }

  function Visited(st: Store, loaded: map<int, Loaded>, parse: Parser, version: int, files: seq<Candidate>): Progress {
    VisitAll(Started(st), loaded, parse, version, st.counter + 1, files)
  }

  /** A successful scan: with the cache, and without it. */
  function CachedScan(st: Store, parse: Parser, version: int, files: seq<Candidate>): Store {
    Finalized(Visited(st, LoadCache(st, version), parse, version, files), st.counter + 1)
  }

  function PlainScan(st: Store, parse: Parser, version: int, files: seq<Candidate>): Store {
    Finalized(Visited(st, map[], parse, version, files), st.counter + 1)
  }

  // ---------------------------------------------------------------------
  // What a scan should leave behind

  /** The library a client sees: present tracks with their raw metadata. */
  function Present(tracks: map<int, Row>): map<int, int> {
    map n | n in tracks && !tracks[n].missing :: tracks[n].raw
  }

  /** Exactly the files that parse, with what they parse to. */
  ghost predicate Mirrors(view: map<int, int>, parse: Parser, version: int, files: seq<Candidate>) {
    && (forall n :: n in view ==> exists i :: 0 <= i < |files| && files[i].native == n && parse(version, files[i]) == Some(view[n]))
    && (forall i :: 0 <= i < |files| && parse(version, files[i]).Some? ==>
          files[i].native in view && view[files[i].native] == parse(version, files[i]).value)
  }

  /** A directory walk names each file once. */
  predicate Distinct(files: seq<Candidate>) {
    forall i, j :: 0 <= i < j < |files| ==> files[i].native != files[j].native
  }

  predicate SeenUpTo(tracks: map<int, Row>, stamp: int) {
    forall n :: n in tracks ==> tracks[n].seenSeq <= stamp
  }

  /** Every file the scan takes from the cache has its true parse in the library. */
  ghost predicate HitsAgree(st: Store, loaded: map<int, Loaded>, parse: Parser, version: int, files: seq<Candidate>) {
    forall i :: 0 <= i < |files| && Hit(loaded, files[i]) ==>
      files[i].native in st.tracks && parse(version, files[i]) == Some(st.tracks[files[i].native].raw)
  }

  /** The scan so far has left row and entry n alone. */
  predicate SameAt(st: Store, p: Progress, n: int) {
    && (n in p.tracks <==> n in st.tracks) && (n in p.tracks ==> p.tracks[n] == st.tracks[n])
    && (n in p.cache <==> n in st.cache) && (n in p.cache ==> p.cache[n] == st.cache[n])
  }

  /** What visiting one file leaves: a hit changes nothing, a parse replaces row and entry. */
  ghost predicate FileDone(st: Store, loaded: map<int, Loaded>, parse: Parser, version: int, c: Candidate, p: Progress) {
    var n := c.native;
    var parsed := parse(version, c);
    if !Hit(loaded, c) && parsed.Some? then
      && n in p.seen && n in p.cache && p.cache[n] == Entry(c, version, parsed.value)
      && n in p.tracks && p.tracks[n] == Upserted(st.tracks, n, parsed.value, st.counter + 1)[n]
    else (n in p.seen <==> Hit(loaded, c)) && SameAt(st, p, n)
  }

  ghost predicate IsNative(files: seq<Candidate>, n: int) {
    exists i :: 0 <= i < |files| && files[i].native == n
  }

  /** The state after visiting files, file by file. */
  ghost predicate VisitedRight(st: Store, loaded: map<int, Loaded>, parse: Parser, version: int, files: seq<Candidate>, p: Progress) {
    && p.seen <= p.encountered
    && (forall n :: n in p.encountered <==> IsNative(files, n))
    && (forall n :: n !in p.encountered ==> SameAt(st, p, n))
    && (forall i :: 0 <= i < |files| ==> FileDone(st, loaded, parse, version, files[i], p))
  }

  lemma {:induction false} VisitThis(st: Store, loaded: map<int, Loaded>, parse: Parser, version: int, p: Progress, c: Candidate)
    requires SameAt(st, p, c.native) && p.seen <= p.encountered && c.native !in p.encountered
    ensures var q := Visit(p, loaded, parse, version, st.counter + 1, c);
            && FileDone(st, loaded, parse, version, c, q)
            && q.seen <= q.encountered && q.encountered == p.encountered + {c.native}
            && (forall n :: n != c.native && SameAt(st, p, n) ==> SameAt(st, q, n))
  {
  }

  lemma {:induction false} NativesAppend(files: seq<Candidate>, c: Candidate, n: int)
    ensures IsNative(files + [c], n) <==> IsNative(files, n) || n == c.native
  {
    var all := files + [c];
    if i :| 0 <= i < |files| && files[i].native == n {
      assert all[i].native == n;
    }
    if n == c.native {
      assert all[|files|].native == n;
    }
  }

  lemma {:induction false} VisitsOneMore(st: Store, loaded: map<int, Loaded>, parse: Parser, version: int, files: seq<Candidate>,
                                         c: Candidate, p: Progress)
    requires VisitedRight(st, loaded, parse, version, files, p) && !IsNative(files, c.native)
    ensures VisitedRight(st, loaded, parse, version, files + [c], Visit(p, loaded, parse, version, st.counter + 1, c))
  {
    assert forall i :: 0 <= i < |files| ==> files[i].native != c.native;
    hide FileDone, SameAt, Visit, Hit, IsNative;
    var q := Visit(p, loaded, parse, version, st.counter + 1, c);
    VisitThis(st, loaded, parse, version, p, c);
    forall n
      ensures n in q.encountered <==> IsNative(files + [c], n)
    {
      NativesAppend(files, c, n);
    }
    forall i | 0 <= i < |files|
      ensures FileDone(st, loaded, parse, version, files[i], q)
    {
      assert FileDone(st, loaded, parse, version, files[i], p);
      OthersStayDone(st, loaded, parse, version, files[i], c, p);
    }
  }

  /** Visiting one file leaves every other file's outcome alone. */
  lemma {:induction false} OthersStayDone(st: Store, loaded: map<int, Loaded>, parse: Parser, version: int,
                                          done: Candidate, c: Candidate, p: Progress)
    requires FileDone(st, loaded, parse, version, done, p)
    ensures done.native != c.native ==>
              FileDone(st, loaded, parse, version, done, Visit(p, loaded, parse, version, st.counter + 1, c))
  {
    hide Hit;
  }

  lemma {:induction false} VisitsRight(st: Store, loaded: map<int, Loaded>, parse: Parser, version: int, files: seq<Candidate>)
    requires Distinct(files)
    ensures VisitedRight(st, loaded, parse, version, files, Visited(st, loaded, parse, version, files))
  {
    if files != [] {
      var last := |files| - 1;
      VisitsRight(st, loaded, parse, version, files[..last]);
      var p := Visited(st, loaded, parse, version, files[..last]);
      assert Visit(p, loaded, parse, version, st.counter + 1, files[last]) == Visited(st, loaded, parse, version, files) by {
        hide Visit;
      }
      assert !IsNative(files[..last], files[last].native);
      hide VisitedRight, Visit, Visited, IsNative, Distinct;
      VisitsOneMore(st, loaded, parse, version, files[..last], files[last], p);
      assert files[..last] + [files[last]] == files;
    }
  }

  // ---------------------------------------------------------------------
  // A finished scan

  /** A native id seen by a scan is that of a cache hit or of a file that parsed. */
  lemma {:induction false} SeenFile(st: Store, loaded: map<int, Loaded>, parse: Parser, version: int, files: seq<Candidate>,
                                    p: Progress, i: nat)
    requires VisitedRight(st, loaded, parse, version, files, p) && i < |files|
    ensures files[i].native in p.seen <==> Hit(loaded, files[i]) || parse(version, files[i]).Some?
    ensures !Hit(loaded, files[i]) && parse(version, files[i]).Some? ==>
              files[i].native in p.tracks && p.tracks[files[i].native].raw == parse(version, files[i]).value
    ensures Hit(loaded, files[i]) ==> SameAt(st, p, files[i].native)
  {
    assert FileDone(st, loaded, parse, version, files[i], p);
  }

  /** Rows a scan did not see keep an older sequence number. */
  lemma {:induction false} UnseenIsOlder(st: Store, loaded: map<int, Loaded>, parse: Parser, version: int, files: seq<Candidate>,
                                         p: Progress, n: int)
    requires VisitedRight(st, loaded, parse, version, files, p) && SeenUpTo(st.tracks, st.counter) && n in p.tracks
    ensures p.tracks[n].seenSeq <= st.counter + 1
    ensures p.tracks[n].seenSeq == st.counter + 1 ==> n in p.seen
  {
    if n in p.encountered {
      assert IsNative(files, n);
      var i :| 0 <= i < |files| && files[i].native == n;
      assert FileDone(st, loaded, parse, version, files[i], p);
    } else {
      assert SameAt(st, p, n);
    }
  }

  /** After any successful scan a track is present exactly when its native id was seen. */
  lemma {:induction false} PresentIsSeen(st: Store, loaded: map<int, Loaded>, parse: Parser, version: int, files: seq<Candidate>)
    requires Distinct(files) && SeenUpTo(st.tracks, st.counter)
    requires forall n :: n in loaded && loaded[n].canonicalExists ==> n in st.tracks
    ensures var p := Visited(st, loaded, parse, version, files);
            Present(Finalized(p, st.counter + 1).tracks).Keys == p.seen
  {
    VisitsRight(st, loaded, parse, version, files);
    var p := Visited(st, loaded, parse, version, files);
    var view := Present(Finalized(p, st.counter + 1).tracks);
    hide Visited, Present, Finalized, VisitedRight;
    forall n
      ensures n in view <==> n in p.seen
    {
      SeenHasRow(st, loaded, parse, version, files, p, n);
      if n in p.tracks {
        UnseenIsOlder(st, loaded, parse, version, files, p, n);
      }
      ViewHas(p, st.counter + 1, n);
    }
  }

  lemma {:induction false} ViewHas(p: Progress, stamp: int, n: int)
    ensures var final := Finalized(p, stamp).tracks; var view := Present(final);
            && (n in final <==> n in p.tracks)
            && (n in view <==> n in final && !final[n].missing)
            && (n in view ==> view[n] == final[n].raw && view[n] == p.tracks[n].raw)
  {
  }

  lemma {:induction false} SeenHasRow(st: Store, loaded: map<int, Loaded>, parse: Parser, version: int, files: seq<Candidate>,
                                      p: Progress, n: int)
    requires VisitedRight(st, loaded, parse, version, files, p)
    requires forall k :: k in loaded && loaded[k].canonicalExists ==> k in st.tracks
    ensures n in p.seen ==> n in p.tracks
  {
    if n in p.seen {
      assert n in p.encountered;
      assert IsNative(files, n);
      var i :| 0 <= i < |files| && files[i].native == n;
      assert FileDone(st, loaded, parse, version, files[i], p);
    }
  }

  /** The final view, file by file: the raw metadata of a hit, or the fresh parse. */
  lemma {:induction false} FileInView(st: Store, loaded: map<int, Loaded>, parse: Parser, version: int, files: seq<Candidate>, i: nat)
    requires Distinct(files) && SeenUpTo(st.tracks, st.counter) && i < |files|
    requires forall n :: n in loaded && loaded[n].canonicalExists ==> n in st.tracks
    ensures var view := Present(Finalized(Visited(st, loaded, parse, version, files), st.counter + 1).tracks);
            var c := files[i];
            && (c.native in view <==> Hit(loaded, c) || parse(version, c).Some?)
            && (Hit(loaded, c) ==> view[c.native] == st.tracks[c.native].raw)
            && (!Hit(loaded, c) && parse(version, c).Some? ==> view[c.native] == parse(version, c).value)
  {
    VisitsRight(st, loaded, parse, version, files);
    PresentIsSeen(st, loaded, parse, version, files);
    var p := Visited(st, loaded, parse, version, files);
    SeenFile(st, loaded, parse, version, files, p, i);
    ViewHas(p, st.counter + 1, files[i].native);
    hide Visited, Present, Finalized, VisitedRight;
  }

  /** The refinement, exactly: whatever the tables hold, a successful scan leaves the present
      tracks and raw metadata of a scan that parses every file if and only if the library rows
      of its cache hits hold those files' true parses. */
  lemma {:induction false} ScanMirrorsIffHitsAgree(st: Store, loaded: map<int, Loaded>, parse: Parser, version: int,
                                                   files: seq<Candidate>)
    requires Distinct(files) && SeenUpTo(st.tracks, st.counter)
    requires forall n :: n in loaded && loaded[n].canonicalExists ==> n in st.tracks
    ensures Mirrors(Present(Finalized(Visited(st, loaded, parse, version, files), st.counter + 1).tracks), parse, version, files)
            <==> HitsAgree(st, loaded, parse, version, files)
  {
    var p := Visited(st, loaded, parse, version, files);
    var view := Present(Finalized(p, st.counter + 1).tracks);
    VisitsRight(st, loaded, parse, version, files);
    PresentIsSeen(st, loaded, parse, version, files);
    forall i | 0 <= i < |files|
      ensures files[i].native in view <==> Hit(loaded, files[i]) || parse(version, files[i]).Some?
      ensures Hit(loaded, files[i]) ==> view[files[i].native] == st.tracks[files[i].native].raw
      ensures !Hit(loaded, files[i]) && parse(version, files[i]).Some? ==> view[files[i].native] == parse(version, files[i]).value
    {
      FileInView(st, loaded, parse, version, files, i);
    }
    hide Visited, Present, Finalized, Hit, Mirrors, HitsAgree, FileDone, SameAt, SeenUpTo;
    forall n | n in view
      ensures IsNative(files, n)
    {
      assert n in p.encountered;
    }
    ViewMirrorsIff(st, loaded, parse, version, files, view);
  }

  /** The view against the files, from what each file contributes to it. */
  lemma {:induction false} ViewMirrorsIff(st: Store, loaded: map<int, Loaded>, parse: Parser, version: int, files: seq<Candidate>,
                                          view: map<int, int>)
    requires Distinct(files) && (forall n :: n in view ==> IsNative(files, n))
    requires forall i :: 0 <= i < |files| ==> (files[i].native in view <==> Hit(loaded, files[i]) || parse(version, files[i]).Some?)
    requires forall i :: 0 <= i < |files| && Hit(loaded, files[i]) ==>
               files[i].native in st.tracks && view[files[i].native] == st.tracks[files[i].native].raw
    requires forall i :: 0 <= i < |files| && !Hit(loaded, files[i]) && parse(version, files[i]).Some? ==>
               view[files[i].native] == parse(version, files[i]).value
    ensures Mirrors(view, parse, version, files) <==> HitsAgree(st, loaded, parse, version, files)
  {
    hide Hit;
    if Mirrors(view, parse, version, files) {
      forall i | 0 <= i < |files| && Hit(loaded, files[i])
        ensures parse(version, files[i]) == Some(st.tracks[files[i].native].raw)
      {
        var n := files[i].native;
        assert n in view;
        var k :| 0 <= k < |files| && files[k].native == n && parse(version, files[k]) == Some(view[n]);
        assert k == i;
      }
    }
    if HitsAgree(st, loaded, parse, version, files) {
      forall n | n in view
        ensures exists i :: 0 <= i < |files| && files[i].native == n && parse(version, files[i]) == Some(view[n])
      {
        var i :| 0 <= i < |files| && files[i].native == n;
        assert parse(version, files[i]) == Some(view[n]);
      }
    }
  }

  /** Two views that mirror the same files are the same view. */
  lemma {:induction false} MirrorsDetermines(v: map<int, int>, w: map<int, int>, parse: Parser, version: int, files: seq<Candidate>)
    requires Mirrors(v, parse, version, files) && Mirrors(w, parse, version, files)
    ensures v == w
  {
    forall n
      ensures n in v <==> n in w
      ensures n in v ==> v[n] == w[n]
    {
      if n in v {
        var i :| 0 <= i < |files| && files[i].native == n && parse(version, files[i]) == Some(v[n]);
      }
      if n in w {
        var i :| 0 <= i < |files| && files[i].native == n && parse(version, files[i]) == Some(w[n]);
      }
    }
  }

  /** A scan without the cache always mirrors the files. */
  lemma {:induction false} PlainScanMirrors(st: Store, parse: Parser, version: int, files: seq<Candidate>)
    requires Distinct(files) && SeenUpTo(st.tracks, st.counter)
    ensures Mirrors(Present(PlainScan(st, parse, version, files).tracks), parse, version, files)
  {
    ScanMirrorsIffHitsAgree(st, map[], parse, version, files);
  }

  // ---------------------------------------------------------------------
  // Whole histories

  /** What the tables of one source go through. A stopped scan visits `count` files and never
      finalizes; a torn one also upserts the next file without its cache put. `OtherWrite` is
      any other writer taking a sequence number. */
  datatype Event =
    | Scanned(version: int, files: seq<Candidate>)
    | Stopped(version: int, files: seq<Candidate>, count: nat, torn: bool)
    | Cleared
    | OtherWrite

  function StoppedScan(st: Store, parse: Parser, version: int, files: seq<Candidate>, torn: Option<Candidate>): Store {
    var p := Visited(st, LoadCache(st, version), parse, version, files);
    var stamp := st.counter + 1;
    if torn.None? || parse(version, torn.value).None? then Store(p.tracks, p.cache, stamp)
    else Store(Upserted(p.tracks, torn.value.native, parse(version, torn.value).value, stamp), p.cache, stamp)
  }

  predicate Sensible(e: Event) {
    match e
    case Scanned(_, files) => Distinct(files)
    case Stopped(_, files, count, torn) => Distinct(files) && (if torn then count < |files| else count <= |files|)
    case _ => true
  }

  function After(st: Store, parse: Parser, e: Event): Store
    requires Sensible(e)
  {
    match e
    case Scanned(version, files) => CachedScan(st, parse, version, files)
    case Stopped(version, files, count, torn) =>
      StoppedScan(st, parse, version, files[..count], if torn then Some(files[count]) else None)
    case Cleared => Store(Finished(st.tracks, st.counter + 1), map[], st.counter + 1)
    case OtherWrite => st.(counter := st.counter + 1)
  }

  function AfterAll(parse: Parser, history: seq<Event>): Store
    requires forall i :: 0 <= i < |history| ==> Sensible(history[i])
  {
    if history == [] then Store(map[], map[], 0)
    else After(AfterAll(parse, history[..|history| - 1]), parse, history[|history| - 1])
  }

  /** Every cache row holds the true parse of its fingerprint, which is also in the library. */
  ghost predicate Coherent(st: Store, parse: Parser) {
    && SeenUpTo(st.tracks, st.counter)
    && (forall n :: n in st.cache ==> EntryCoherent(st, parse, n))
  }

  ghost predicate EntryCoherent(st: Store, parse: Parser, n: int)
    requires n in st.cache
  {
    var e := st.cache[n];
    && e.candidate.native == n && parse(e.version, e.candidate) == Some(e.meta)
    && n in st.tracks && st.tracks[n].raw == e.meta
  }

  /** Every upsert of the history was paired with its cache put. */
  predicate Paired(history: seq<Event>) {
    forall i :: 0 <= i < |history| && history[i].Stopped? ==> !history[i].torn
  }

  lemma {:induction false} VisitedCoherent(st: Store, parse: Parser, version: int, files: seq<Candidate>)
    requires Coherent(st, parse) && Distinct(files)
    ensures var p := Visited(st, LoadCache(st, version), parse, version, files);
            Coherent(Store(p.tracks, p.cache, st.counter + 1), parse) && Coherent(Finalized(p, st.counter + 1), parse)
  {
    var loaded := LoadCache(st, version);
    VisitsRight(st, loaded, parse, version, files);
    var p := Visited(st, loaded, parse, version, files);
    var t := Store(p.tracks, p.cache, st.counter + 1);
    hide Visited, LoadCache;
    forall n | n in p.tracks
      ensures p.tracks[n].seenSeq <= t.counter
    {
      UnseenIsOlder(st, loaded, parse, version, files, p, n);
    }
    forall n | n in p.cache
      ensures EntryCoherent(t, parse, n)
    {
      if n in p.encountered {
        assert IsNative(files, n);
        var i :| 0 <= i < |files| && files[i].native == n;
        assert FileDone(st, loaded, parse, version, files[i], p);
      } else {
        assert SameAt(st, p, n);
      }
    }
    FinalizedKeeps(p, parse, t.counter);
  }

  lemma {:induction false} FinalizedKeeps(p: Progress, parse: Parser, stamp: int)
    requires Coherent(Store(p.tracks, p.cache, stamp), parse)
    ensures Coherent(Finalized(p, stamp), parse)
  {
    var f := Finalized(p, stamp);
    forall n | n in f.cache
      ensures EntryCoherent(f, parse, n)
    {
      assert EntryCoherent(Store(p.tracks, p.cache, stamp), parse, n);
    }
  }

  lemma {:induction false} HistoryCoherent(parse: Parser, history: seq<Event>)
    requires forall i :: 0 <= i < |history| ==> Sensible(history[i])
    requires Paired(history)
    ensures Coherent(AfterAll(parse, history), parse)
  {
    if history != [] {
      var last := history[|history| - 1];
      var before := AfterAll(parse, history[..|history| - 1]);
      HistoryCoherent(parse, history[..|history| - 1]);
      hide AfterAll, Visited, Finalized, LoadCache;
      match last {
        case Scanned(version, files) => VisitedCoherent(before, parse, version, files);
        case Stopped(version, files, count, torn) => VisitedCoherent(before, parse, version, files[..count]);
        case Cleared =>
        case OtherWrite => OtherWriteKeeps(before, parse);
      }
    }
  }

  lemma {:induction false} OtherWriteKeeps(st: Store, parse: Parser)
    requires Coherent(st, parse)
    ensures Coherent(st.(counter := st.counter + 1), parse)
  {
    forall n | n in st.cache
      ensures EntryCoherent(st.(counter := st.counter + 1), parse, n)
    {
      assert EntryCoherent(st, parse, n);
    }
  }

  lemma {:induction false} CoherentHitsAgree(st: Store, parse: Parser, version: int, files: seq<Candidate>)
    requires Coherent(st, parse)
    ensures HitsAgree(st, LoadCache(st, version), parse, version, files)
  {
    forall i | 0 <= i < |files| && Hit(LoadCache(st, version), files[i])
      ensures files[i].native in st.tracks && parse(version, files[i]) == Some(st.tracks[files[i].native].raw)
    {
      assert EntryCoherent(st, parse, files[i].native);
    }
  }

  /** Where the cache is coherent, a scan that uses it mirrors the files. */
  lemma {:induction false} CoherentScanMirrors(st: Store, parse: Parser, version: int, files: seq<Candidate>)
    requires Coherent(st, parse) && SeenUpTo(st.tracks, st.counter) && Distinct(files)
    ensures Mirrors(Present(CachedScan(st, parse, version, files).tracks), parse, version, files)
  {
    CoherentHitsAgree(st, parse, version, files);
    hide HitsAgree, Visited, Finalized, Present, Mirrors, EntryCoherent, Distinct, SeenUpTo, Coherent;
    ScanMirrorsIffHitsAgree(st, LoadCache(st, version), parse, version, files);
  }

  /** Incremental refines full: after any history whose upserts were paired with their cache
      puts (whole scans, scans stopped anywhere, source changes, parser upgrades, any edits of
      the files between), a successful cached scan leaves the same present tracks and raw
      metadata as a scan without the cache, namely those of the files themselves. */
  lemma {:induction false} CachedScanRefinesPlainScan(parse: Parser, history: seq<Event>, version: int, files: seq<Candidate>)
    requires forall i :: 0 <= i < |history| ==> Sensible(history[i])
    requires Paired(history) && Distinct(files)
    ensures var st := AfterAll(parse, history);
            && Mirrors(Present(CachedScan(st, parse, version, files).tracks), parse, version, files)
            && Present(CachedScan(st, parse, version, files).tracks) == Present(PlainScan(st, parse, version, files).tracks)
  {
    var st := AfterAll(parse, history);
    HistoryCoherent(parse, history);
    hide AfterAll, Present, Mirrors, EntryCoherent, CachedScan, PlainScan, Distinct, Paired;
    CoherentScanMirrors(st, parse, version, files);
    PlainScanMirrors(st, parse, version, files);
    MirrorsDetermines(Present(CachedScan(st, parse, version, files).tracks), Present(PlainScan(st, parse, version, files).tracks),
                      parse, version, files);
  }

  const ORIGINAL := Candidate(7, 1, 1)
  const EDITED := Candidate(7, 1, 2)

  function ParseTime(version: int, c: Candidate): Option<int> {
    Some(c.mtime)
  }

  lemma {:induction false} ScanOriginal()
    ensures After(Store(map[], map[], 0), ParseTime, Scanned(1, [ORIGINAL]))
         == Store(map[7 := Row(1, false, 1, 1)], map[7 := Entry(ORIGINAL, 1, 1)], 1)
  {
    var st := Store(map[], map[], 0);
    VisitOne(st, map[], ParseTime, 1, ORIGINAL);
    assert LoadCache(st, 1) == map[];
  }

  lemma {:induction false} TearEdited()
    ensures After(Store(map[7 := Row(1, false, 1, 1)], map[7 := Entry(ORIGINAL, 1, 1)], 1), ParseTime, Stopped(1, [EDITED], 0, true))
         == Store(map[7 := Row(2, false, 2, 2)], map[7 := Entry(ORIGINAL, 1, 1)], 2)
  {
    assert [EDITED][..0] == [];
  }

  lemma {:induction false} RescanOriginal(st: Store)
    requires st == Store(map[7 := Row(2, false, 2, 2)], map[7 := Entry(ORIGINAL, 1, 1)], 2)
    ensures Present(PlainScan(st, ParseTime, 1, [ORIGINAL]).tracks) == map[7 := 1]
    ensures Present(CachedScan(st, ParseTime, 1, [ORIGINAL]).tracks) == map[7 := 2]
  {
    hide Present;
    RescanPlain(st);
    RescanCached(st);
  }

  lemma {:induction false} RescanPlain(st: Store)
    requires st == Store(map[7 := Row(2, false, 2, 2)], map[7 := Entry(ORIGINAL, 1, 1)], 2)
    ensures Present(PlainScan(st, ParseTime, 1, [ORIGINAL]).tracks) == map[7 := 1]
  {
    VisitOne(st, map[], ParseTime, 1, ORIGINAL);
    hide Visited;
  }

  lemma {:induction false} RescanCached(st: Store)
    requires st == Store(map[7 := Row(2, false, 2, 2)], map[7 := Entry(ORIGINAL, 1, 1)], 2)
    ensures Present(CachedScan(st, ParseTime, 1, [ORIGINAL]).tracks) == map[7 := 2]
  {
    assert LoadCache(st, 1) == map[7 := Loaded(ORIGINAL, true)];
    VisitOne(st, LoadCache(st, 1), ParseTime, 1, ORIGINAL);
    hide Visited;
  }

  /** An upsert without its cache put: the file is edited, the scan that reads the edit stops
      between the two writes, and the edit is undone. The next scan takes the stale cache row
      for the file and keeps the undone metadata. */
  lemma {:induction false} UnpairedUpsertDiverges()
    ensures var history := [Scanned(1, [ORIGINAL]), Stopped(1, [EDITED], 0, true)];
            var st := AfterAll(ParseTime, history);
            && !Paired(history)
            && Present(PlainScan(st, ParseTime, 1, [ORIGINAL]).tracks) == map[7 := 1]
            && Present(CachedScan(st, ParseTime, 1, [ORIGINAL]).tracks) == map[7 := 2]
  {
    var history := [Scanned(1, [ORIGINAL]), Stopped(1, [EDITED], 0, true)];
    assert history[1].torn;
    AfterTwo(ParseTime, history);
    hide AfterAll, After, Present, PlainScan, CachedScan;
    ScanOriginal();
    TearEdited();
    RescanOriginal(AfterAll(ParseTime, history));
  }

  lemma {:induction false} AfterTwo(parse: Parser, history: seq<Event>)
    requires |history| == 2 && Sensible(history[0]) && Sensible(history[1])
    ensures AfterAll(parse, history) == After(After(Store(map[], map[], 0), parse, history[0]), parse, history[1])
  {
    var one := history[..1];
    assert one[..0] == [] && one[0] == history[0];
    assert AfterAll(parse, one[..0]) == Store(map[], map[], 0);
    assert AfterAll(parse, one) == After(AfterAll(parse, one[..0]), parse, one[0]);
    assert AfterAll(parse, history) == After(AfterAll(parse, history[..1]), parse, history[1]);
  }

  lemma {:induction false} VisitOne(st: Store, loaded: map<int, Loaded>, parse: Parser, version: int, c: Candidate)
    ensures Visited(st, loaded, parse, version, [c]) == Visit(Started(st), loaded, parse, version, st.counter + 1, c)
  {
    var files := [c];
    assert files[..|files| - 1] == [];
    assert VisitAll(Started(st), loaded, parse, version, st.counter + 1, files[..|files| - 1]) == Started(st);
  }

  /** A row's stamp moves exactly when its presence or raw metadata changed, or it is new. */
  lemma {:induction false} StampsTellChanges(st: Store, parse: Parser, version: int, files: seq<Candidate>, n: int)
    requires Distinct(files) && SeenUpTo(st.tracks, st.counter)
    ensures var final := CachedScan(st, parse, version, files).tracks;
            && (n in st.tracks ==> n in final)
            && (n in final ==>
                  final[n].changeSeq ==
                  if n in st.tracks && final[n].missing == st.tracks[n].missing && final[n].raw == st.tracks[n].raw
                  then st.tracks[n].changeSeq else st.counter + 1)
  {
    var loaded := LoadCache(st, version);
    var p := Visited(st, loaded, parse, version, files);
    var stamp := st.counter + 1;
    VisitsRight(st, loaded, parse, version, files);
    hide Visited, LoadCache;
    if n in p.encountered {
      assert IsNative(files, n);
      var i :| 0 <= i < |files| && files[i].native == n;
      assert FileDone(st, loaded, parse, version, files[i], p);
    } else {
      assert SameAt(st, p, n);
    }
  }

  /** What a scan of `files` does for one file, in columns: an unchanged file, whose cache row was
      made by the same parser and which the library has, keeps both rows; any other is parsed,
      and replaces both. */
  lemma {:induction false} FileAfterScan(st: Store, parse: Parser, version: int, files: seq<Candidate>, i: nat)
    requires Distinct(files) && SeenUpTo(st.tracks, st.counter) && i < |files|
    ensures var c, stamp := files[i], st.counter + 1; var n := c.native;
            var known := n in st.cache && st.cache[n].candidate == c && st.cache[n].version == version && n in st.tracks;
            var end := CachedScan(st, parse, version, files);
            if known then
              && n in end.cache && end.cache[n] == st.cache[n]
              && n in end.tracks && end.tracks[n] == Row(st.tracks[n].raw, false, stamp, if st.tracks[n].missing then stamp else st.tracks[n].changeSeq)
            else if parse(version, c) != None then
              && n in end.cache && end.cache[n] == Entry(c, version, parse(version, c).value)
              && n in end.tracks
              && end.tracks[n] == Row(parse(version, c).value, false, stamp,
                                      if n in st.tracks && !st.tracks[n].missing && st.tracks[n].raw == parse(version, c).value
                                      then st.tracks[n].changeSeq else stamp)
            else
              && (n in end.cache <==> n in st.cache) && (n in end.cache ==> end.cache[n] == st.cache[n]) && GoneAfter(st, end, n)
  {
    var loaded := LoadCache(st, version);
    var p := Visited(st, loaded, parse, version, files);
    VisitsRight(st, loaded, parse, version, files);
    assert FileDone(st, loaded, parse, version, files[i], p);
    assert IsNative(files, files[i].native);
    hide Visited, Distinct, SeenUpTo, VisitedRight, IsNative;
    var c := files[i];
    var n := c.native;
    assert Hit(loaded, c) <==> n in st.cache && st.cache[n].candidate == c && st.cache[n].version == version && n in st.tracks;
    hide LoadCache;
    SeenRow(st, p, n);
  }

  /** The row is not there, or missing as before, or goes missing now. */
  predicate GoneAfter(st: Store, end: Store, n: int) {
    && (n in end.tracks <==> n in st.tracks)
    && (n in st.tracks ==>
          end.tracks[n] == if st.tracks[n].missing then st.tracks[n] else st.tracks[n].(missing := true, changeSeq := st.counter + 1))
  }

  lemma {:induction false} SeenRow(st: Store, p: Progress, n: int)
    requires SeenUpTo(st.tracks, st.counter)
    ensures var end, stamp := Finalized(p, st.counter + 1), st.counter + 1;
            && (n in end.cache <==> n in p.cache && n in p.encountered) && (n in end.cache ==> end.cache[n] == p.cache[n])
            && (n in end.tracks <==> n in p.tracks)
            && (n in p.seen && n in p.tracks ==>
                  end.tracks[n] == Row(p.tracks[n].raw, false, stamp, if p.tracks[n].missing then stamp else p.tracks[n].changeSeq))
            && (n !in p.seen && SameAt(st, p, n) ==> GoneAfter(st, end, n))
  {
  }

  /** A file that is no longer there takes its cache row with it, and its track goes missing. */
  lemma {:induction false} GoneAfterScan(st: Store, parse: Parser, version: int, files: seq<Candidate>, n: int)
    requires Distinct(files) && SeenUpTo(st.tracks, st.counter) && forall i :: 0 <= i < |files| ==> files[i].native != n
    ensures var end := CachedScan(st, parse, version, files); n !in end.cache && GoneAfter(st, end, n)
  {
    var loaded := LoadCache(st, version);
    var p := Visited(st, loaded, parse, version, files);
    VisitsRight(st, loaded, parse, version, files);
    assert !IsNative(files, n);
    hide Visited, Distinct, SeenUpTo, IsNative, FileDone, SameAt, LoadCache;
    SeenRow(st, p, n);
  }

  /** A scan stopped after `files`: unchanged files and those not reached keep their rows; the
      others visited are parsed, and no row goes missing. */
  lemma {:induction false} FileAfterStop(st: Store, parse: Parser, version: int, files: seq<Candidate>, n: int)
    requires Distinct(files)
    ensures StoppedScan(st, parse, version, files, None).counter == st.counter + 1
    ensures forall i :: 0 <= i < |files| && files[i].native == n ==>
              var c, end := files[i], StoppedScan(st, parse, version, files, None);
              var known := n in st.cache && st.cache[n].candidate == c && st.cache[n].version == version && n in st.tracks;
              !known && parse(version, c) != None ==>
                && n in end.cache && end.cache[n] == Entry(c, version, parse(version, c).value) && n in end.tracks
                && end.tracks[n].raw == parse(version, c).value && !end.tracks[n].missing && end.tracks[n].seenSeq == st.counter + 1
    ensures (forall i :: 0 <= i < |files| && files[i].native == n ==>
               parse(version, files[i]) == None ||
               (n in st.cache && st.cache[n].candidate == files[i] && st.cache[n].version == version && n in st.tracks)) ==>
              var end := StoppedScan(st, parse, version, files, None);
              && (n in end.cache <==> n in st.cache) && (n in end.cache ==> end.cache[n] == st.cache[n])
              && (n in end.tracks <==> n in st.tracks) && (n in end.tracks ==> end.tracks[n] == st.tracks[n])
  {
    var loaded := LoadCache(st, version);
    var p := Visited(st, loaded, parse, version, files);
    VisitsRight(st, loaded, parse, version, files);
    hide Visited, Distinct;
    assert n in p.encountered <==> IsNative(files, n);
    forall i | 0 <= i < |files| && files[i].native == n
      ensures FileDone(st, loaded, parse, version, files[i], p)
      ensures Hit(loaded, files[i]) <==> n in st.cache && st.cache[n].candidate == files[i] && st.cache[n].version == version && n in st.tracks
    {
    }
    hide VisitedRight, LoadCache, Hit;
  }

  // ---------------------------------------------------------------------
  // The tables themselves

  /** Rows marked by one statement of markTracksSeen. */
  const CHUNK := 400

  class Library {
    var tracks: map<int, Row>
    var cache: map<int, Entry>
    var counter: int

    ghost function View(): Store
      reads this
    {
      Store(tracks, cache, counter)
    }

    constructor ()
      ensures View() == Store(map[], map[], 0)
    {
      tracks, cache, counter := map[], map[], 0;
    }

    /** markTracksSeen: its chunks amount to one update of all the ids. */
    method MarkTracksSeen(ids: seq<int>, stamp: int)
      modifies this`tracks
      ensures tracks == Marked(old(tracks), Elements(ids), stamp)
      ensures tracks.Keys == old(tracks).Keys
      ensures forall n :: n in tracks ==>
                var was := old(tracks)[n];
                tracks[n] == if n in ids then Row(was.raw, false, stamp, if was.missing then stamp else was.changeSeq) else was
    {
      var start := 0;
      while start < |ids|
        invariant 0 <= start
        invariant tracks == Marked(old(tracks), Elements(ids[..Min(start, |ids|)]), stamp)
      {
        var end := Min(start + CHUNK, |ids|);
        var batch := Elements(ids[start..end]);
        MarkedTwice(old(tracks), Elements(ids[..start]), batch, stamp);
        assert ids[..end] == ids[..start] + ids[start..end];
        assert Elements(ids[..start]) + batch == Elements(ids[..end]);
        tracks := Marked(tracks, batch, stamp);
        start := start + CHUNK;
      }
      assert ids[..|ids|] == ids;
    }

    method UpsertTrack(native: int, meta: int, stamp: int)
      modifies this`tracks
      ensures tracks == Upserted(old(tracks), native, meta, stamp)
      ensures tracks.Keys == old(tracks).Keys + {native}
      ensures tracks[native] == Row(meta, false, stamp,
                                    if native in old(tracks) && !old(tracks)[native].missing && old(tracks)[native].raw == meta
                                    then old(tracks)[native].changeSeq else stamp)
      ensures forall n :: n in tracks && n != native ==> tracks[n] == old(tracks)[n]
    {
      var change := stamp;
      if native in tracks && !tracks[native].missing && tracks[native].raw == meta {
        change := tracks[native].changeSeq;
      }
      tracks := tracks[native := Row(meta, false, stamp, change)];
    }

    /** runScan. Cancellation may come before any file, or before the finalizing transaction. */
    method Scan(parse: Parser, version: int, files: seq<Candidate>, cancelAt: Option<nat>) returns (finished: bool)
      requires Distinct(files) && SeenUpTo(tracks, counter) && (cancelAt.Some? ==> cancelAt.value <= |files|)
      modifies this
      ensures finished <==> cancelAt.None?
      ensures finished ==> View() == CachedScan(old(View()), parse, version, files)
      ensures finished ==> forall n :: n in tracks && !tracks[n].missing <==> n in Visited(old(View()), LoadCache(old(View()), version), parse, version, files).seen
      ensures !finished ==> View() == StoppedScan(old(View()), parse, version, files[..cancelAt.value], None)
    {
      hide Upserted, Hit, Finalized;
      ghost var st := View();
      counter := counter + 1;
      var loaded := LoadCache(Store(tracks, cache, counter), version);
      var seen: set<int>, encountered: set<int> := {}, {};
      var i := 0;
      while i < |files|
        invariant 0 <= i <= |files| && counter == st.counter + 1
        invariant cancelAt.Some? ==> i <= cancelAt.value
        invariant Progress(tracks, cache, seen, encountered) == Visited(st, loaded, parse, version, files[..i])
      {
        if cancelAt == Some(i) {
          return false;
        }
        var c := files[i];
        assert files[..i + 1][..i] == files[..i];
        encountered := encountered + {c.native};
        if Hit(loaded, c) {
          seen := seen + {c.native};
        } else {
          var parsed := parse(version, c);
          if parsed.Some? {
            UpsertTrack(c.native, parsed.value, counter);
            seen := seen + {c.native};
            cache := cache[c.native := Entry(c, version, parsed.value)];
          }
        }
        i := i + 1;
      }
      assert files[..|files|] == files;
      if cancelAt.Some? {
        return false;
      }
      PresentIsSeen(st, loaded, parse, version, files);
      Finalize(seen, encountered);
      return true;
    }

    /** FinalizeSourceScan. */
    method Finalize(seen: set<int>, encountered: set<int>)
      modifies this`tracks, this`cache
      ensures View() == Finalized(Progress(old(tracks), old(cache), seen, encountered), counter)
      ensures tracks.Keys == old(tracks).Keys && forall n :: n in cache <==> n in old(cache) && n in encountered
      ensures forall n :: n in cache ==> cache[n] == old(cache)[n]
      ensures forall n :: n in tracks ==>
                var was := old(tracks)[n];
                tracks[n] == if n in seen then Row(was.raw, false, counter, if was.missing then counter else was.changeSeq)
                             else if was.seenSeq < counter && !was.missing then was.(missing := true, changeSeq := counter)
                             else was
    {
      var ids := Enumerate(seen);
      MarkTracksSeen(ids, counter);
      cache := Pruned(cache, encountered);
      tracks := Finished(tracks, counter);
    }
  }

  /** Marking one set after another marks their union: a row marked before is present. */
  lemma {:induction false} MarkedTwice(tracks: map<int, Row>, a: set<int>, b: set<int>, stamp: int)
    ensures Marked(Marked(tracks, a, stamp), b, stamp) == Marked(tracks, a + b, stamp)
  {
    var once := Marked(tracks, a, stamp);
    forall n | n in tracks
      ensures Marked(once, b, stamp)[n] == Marked(tracks, a + b, stamp)[n]
    {
      assert n in once;
    }
  }
}
