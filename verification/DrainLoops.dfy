/** The loops that drain due work (RunWithProgress, internal/mbresolver/runner.go; runAlbumArtStage,
    internal/enrich/artwork_pipeline.go) over the rows that decide what is due, at a fixed
    clock. The tables hold the columns that the two due queries read and that the store's
    writes set; what providers answer and which statements fail is arbitrary. An absent
    MusicBrainz id is the empty string. */
module DrainLoops {
  import opened Common

  const DAY := 86400
  const PER_RUN := 150

  datatype State = Pending | Matched | Ambiguous | Unmatched | Errored

  datatype AlbumRow = AlbumRow(release: string, group: string, version: int, missing: bool,
                               art: Option<int>, artNext: int, artMisses: nat)

  datatype MatchRow = MatchRow(state: State, release: string, group: string, attempts: nat, next: int)

  datatype Tables = Tables(albums: map<int, AlbumRow>, matches: map<int, MatchRow>)

  // ---------------------------------------------------------------------
  // What is due

  /** DueMusicBrainzAlbums and its count: present, not matched, and its next attempt has come;
      an album without a match row counts as attempted at time 0. */
  predicate MatchDue(t: Tables, id: int, now: int) {
    && id in t.albums && !t.albums[id].missing
    && if id in t.matches then !t.matches[id].state.Matched? && t.matches[id].next <= now else 0 <= now
  }

  predicate ArtSought(row: AlbumRow) {
    row.art.None? && !row.missing
  }

  /** AlbumsNeedingArtAt and its count. */
  predicate ArtDue(t: Tables, id: int, now: int) {
    id in t.albums && ArtSought(t.albums[id]) && t.albums[id].artNext <= now
  }

  function MatchesDue(t: Tables, now: int): set<int> {
    set id | id in t.albums && MatchDue(t, id, now)
  }

  function ArtworkDue(t: Tables, now: int): set<int> {
    set id | id in t.albums && ArtDue(t, id, now)
  }

  /** The two due sets, in columns. */
  lemma DueInRows(t: Tables, id: int, now: int)
    ensures id in MatchesDue(t, now) <==>
            && id in t.albums && !t.albums[id].missing
            && (id in t.matches ==> t.matches[id].state != Matched && t.matches[id].next <= now) && (id !in t.matches ==> now >= 0)
    ensures id in ArtworkDue(t, now) <==>
            id in t.albums && t.albums[id].art == None && !t.albums[id].missing && t.albums[id].artNext <= now
  {
  }

  // ---------------------------------------------------------------------
  // What the store writes

  /** recordMusicBrainzResultTx: an upsert that counts attempts. */
  function Recorded(t: Tables, id: int, state: State, release: string, group: string, next: int): Tables {
    var attempts := if id in t.matches then t.matches[id].attempts + 1 else 1;
    t.(matches := t.matches[id := MatchRow(state, release, group, attempts, next)])
  }

  /** The fragments of a split album go missing and lose their match rows. */
  function Retired(t: Tables, fragments: set<int>, stamp: int): Tables {
    Tables(map id | id in t.albums :: if id in fragments then t.albums[id].(missing := true, version := stamp) else t.albums[id],
           t.matches - fragments)
  }

  /** A recorded result leaves its album due exactly when it is neither matched nor put off,
      and makes no other album due. */
  lemma RecordedIsDueIff(t: Tables, id: int, state: State, release: string, group: string, next: int, now: int)
    requires id in t.albums
    ensures MatchesDue(Recorded(t, id, state, release, group, next), now) ==
            MatchesDue(t, now) - {id} + if !t.albums[id].missing && !state.Matched? && next <= now then {id} else {}
    ensures ArtworkDue(Recorded(t, id, state, release, group, next), now) == ArtworkDue(t, now)
  {
    var r := Recorded(t, id, state, release, group, next);
    assert forall x :: x != id ==> (MatchDue(r, x, now) <==> MatchDue(t, x, now));
    assert forall x :: ArtDue(r, x, now) <==> ArtDue(t, x, now);
  }

  /** Retired fragments are due for nothing, although the loss of its match row alone would make
      an album due at once; no other album is affected. */
  lemma RetiredAreNotDue(t: Tables, fragments: set<int>, stamp: int, now: int)
    ensures MatchesDue(Retired(t, fragments, stamp), now) == MatchesDue(t, now) - fragments
    ensures ArtworkDue(Retired(t, fragments, stamp), now) == ArtworkDue(t, now) - fragments
    ensures forall id :: id in fragments && id in t.albums && !t.albums[id].missing && now >= 0 ==>
              id in MatchesDue(t.(matches := t.matches - fragments), now)
  {
    var r := Retired(t, fragments, stamp);
    assert forall x :: MatchDue(r, x, now) <==> x !in fragments && MatchDue(t, x, now);
    assert forall x :: ArtDue(r, x, now) <==> x !in fragments && ArtDue(t, x, now);
  }

  /** Writing one album row, its presence unchanged, changes no match that is due, and the artwork
      due only for that album. */
  lemma RowWrite(t: Tables, id: int, row: AlbumRow, now: int)
    requires id in t.albums && row.missing == t.albums[id].missing
    ensures MatchesDue(t.(albums := t.albums[id := row]), now) == MatchesDue(t, now)
    ensures ArtworkDue(t.(albums := t.albums[id := row]), now) ==
            ArtworkDue(t, now) - {id} + if ArtSought(row) && row.artNext <= now then {id} else {}
  {
    var r := t.(albums := t.albums[id := row]);
    assert forall x :: MatchDue(r, x, now) <==> MatchDue(t, x, now);
    assert forall x :: x != id ==> (ArtDue(r, x, now) <==> ArtDue(t, x, now));
  }

  // ---------------------------------------------------------------------
  // Inputs

  /** An album as a due query listed it. */
  datatype Listed = Listed(id: int, release: string, group: string, version: int)

  /** What a resolve wants applied. `fragments` is the split plan, if there is one, and `art` the
      artwork it moves to the survivor; `unsafe` a
      refused plan; `stale` a difference in title, year or tracks; `rewrites` a change of
      title, credits or recordings; `fails` a statement that fails. */
  datatype Offer = Offer(release: string, group: string, selected: string, selectedGroup: string,
                         fragments: Option<set<int>>, art: Option<int>, unsafe: bool, stale: bool, rewrites: bool, fails: bool)

  /** How a resolve ends: an error before anything is stored; a provider error, recorded or not;
      no acceptable candidate, recorded unless that fails; a match; a shared identity. */
  datatype Finding =
    | Unreadable
    | ProviderFailed(recorded: bool)
    | Parked(ambiguous: bool, release: string, group: string, fails: bool)
    | Match(offer: Offer)
    | Consensus(offer: Offer)

  datatype Outcome = Failed | Kept | Done(changed: bool)

  datatype Lookup = Found(art: int, saved: bool) | NoImage | Transient

  /** Which statement of the retry schedule fails. */
  datatype Fault = Sound | FirstFails | SecondFails

  /** One artwork attempt; `rival` is art that another writer attaches first. */
  datatype Attempt = Attempt(lookup: Lookup, rival: Option<int>, attachFails: bool, fault: Fault)

  /** Everything the loops are told, numbered by the order in which they ask. */
  datatype World = World(find: nat -> Finding, attempt: nat -> Attempt, canceled: nat -> bool, late: nat -> bool,
                         queryFails: nat -> bool)

  datatype Ending = Drained | Settled | Canceled | Late | Stalled | QueryFailed

  /** The attempt neither gave the album art nor scheduled its retry. */
  predicate NoProgress(a: Attempt) {
    if a.lookup.Found? && a.lookup.saved then a.attachFails
    else a.fault.FirstFails? || (a.fault.SecondFails? && a.lookup.NoImage?)
  }

  function Fragments(o: Offer): set<int> {
    if o.fragments.Some? then o.fragments.value else {}
  }

  predicate Changes(a: Listed, o: Offer) {
    o.fragments.Some? || o.rewrites || a.release != o.release || a.group != o.group
  }

  /** The album row under its new identity; one that still lacks art may be tried again at once. */
  function Identified(row: AlbumRow, a: Listed, o: Offer, stamp: int): AlbumRow {
    var art := if o.fragments.Some? && row.art.None? then o.art else row.art;
    var named := row.(art := art,
                      release := if o.release != "" then o.release else row.release,
                      group := if o.group != "" then o.group else row.group,
                      version := if Changes(a, o) then stamp else row.version);
    if (a.release != o.release || a.group != o.group) && art.None? then named.(artNext := 0, artMisses := 0) else named
  }

  function Applied(t: Tables, a: Listed, o: Offer, state: State, next: int, stamp: int): Tables
    requires a.id in t.albums
  {
    var r := Retired(t, Fragments(o), stamp);
    Recorded(r.(albums := r.albums[a.id := Identified(r.albums[a.id], a, o, stamp)]), a.id, state, o.selected, o.selectedGroup, next)
  }

  /** An applied release in columns: the album's own rows, and those of the fragments. */
  lemma AppliedInRows(t: Tables, a: Listed, o: Offer, state: State, next: int, stamp: int)
    requires a.id in t.albums && (o.fragments == None || a.id !in o.fragments.value)
    ensures var r := Applied(t, a, o, state, next, stamp);
            && r.albums.Keys == t.albums.Keys && a.id in r.matches
            && r.matches[a.id] == MatchRow(state, o.selected, o.selectedGroup, if a.id in t.matches then t.matches[a.id].attempts + 1 else 1, next)
    ensures var r := Applied(t, a, o, state, next, stamp); var row, was := r.albums[a.id], t.albums[a.id];
            && row.release == (if o.release == "" then was.release else o.release)
            && row.group == (if o.group == "" then was.group else o.group) && row.missing == was.missing
            && row.art == (if was.art == None && o.fragments != None then o.art else was.art)
            && row.version == (if o.fragments != None || o.rewrites || a.release != o.release || a.group != o.group then stamp else was.version)
            && (if row.art == None && (a.release != o.release || a.group != o.group) then row.artNext == 0 && row.artMisses == 0
                else row.artNext == was.artNext && row.artMisses == was.artMisses)
    ensures var r := Applied(t, a, o, state, next, stamp);
            forall id :: id in t.albums && id != a.id ==>
              if o.fragments != None && id in o.fragments.value then
                r.albums[id] == t.albums[id].(missing := true, version := stamp) && id !in r.matches
              else
                r.albums[id] == t.albums[id] && (id in r.matches <==> id in t.matches) && (id in t.matches ==> r.matches[id] == t.matches[id])
  {
    assert t.albums.Keys == Retired(t, Fragments(o), stamp).albums.Keys;
  }

  /** An applied release takes its own album out of the due set, provided its next attempt lies in
      the future, and the fragments with it; no other album becomes due. The artwork of an album
      with a new identity is due at once. */
  lemma AppliedIsNotDue(t: Tables, a: Listed, o: Offer, state: State, next: int, stamp: int, now: int)
    requires a.id in t.albums && next > now
    ensures var r := Applied(t, a, o, state, next, stamp);
            && r.albums.Keys == t.albums.Keys
            && MatchesDue(r, now) == MatchesDue(t, now) - Fragments(o) - {a.id}
            && (a.id !in Fragments(o) && (a.release != o.release || a.group != o.group) && ArtSought(t.albums[a.id]) && o.art.None? && now >= 0 ==>
                  a.id in ArtworkDue(r, now))
            && (forall id :: id in Fragments(o) && id in r.albums ==> r.albums[id].missing)
  {
    var f := Retired(t, Fragments(o), stamp);
    RetiredAreNotDue(t, Fragments(o), stamp, now);
    var row := Identified(f.albums[a.id], a, o, stamp);
    RowWrite(f, a.id, row, now);
    var n := f.(albums := f.albums[a.id := row]);
    RecordedIsDueIff(n, a.id, state, o.selected, o.selectedGroup, next, now);
  }

  // ---------------------------------------------------------------------
  // The store

  /** An album that stopped being due is settled for at least a day. */
  predicate MatchSettled(t: Tables, id: int, now: int) {
    && id in t.albums
    && (t.albums[id].missing || (id in t.matches && (t.matches[id].state.Matched? || t.matches[id].next >= now + DAY)))
  }

  predicate ArtSettled(t: Tables, id: int, now: int) {
    id in t.albums && (t.albums[id].art.Some? || t.albums[id].artNext >= now + DAY)
  }

  /** The row after markArtAttempt, as far as it got. */
  function Marked(row: AlbumRow, miss: bool, fault: Fault, now: int): AlbumRow {
    if fault.FirstFails? then row
    else if !miss then row.(artNext := now + DAY)
    else
      var late := row.artMisses > 0 && fault.Sound?;
      row.(artMisses := row.artMisses + 1, artNext := now + if late then 30 * DAY else 7 * DAY)
  }

  function Snapshot(id: int, row: AlbumRow): Listed {
    Listed(id, row.release, row.group, row.version)
  }

  function ListedIds(page: seq<Listed>): set<int> {
    set i | 0 <= i < |page| :: page[i].id
  }

  /** From t to u albums only leave the due set, and those that left stay settled. */
  ghost predicate MatchesSettle(t: Tables, u: Tables, now: int) {
    && u.albums.Keys == t.albums.Keys && MatchesDue(u, now) <= MatchesDue(t, now)
    && forall id :: id in t.albums && id !in MatchesDue(u, now) && (id in MatchesDue(t, now) || MatchSettled(t, id, now)) ==>
         MatchSettled(u, id, now)
  }

  ghost predicate ArtworkSettles(t: Tables, u: Tables, now: int) {
    && u.albums.Keys == t.albums.Keys && ArtworkDue(u, now) <= ArtworkDue(t, now)
    && forall id :: id in t.albums && id !in ArtworkDue(u, now) && (id in ArtworkDue(t, now) || ArtSettled(t, id, now)) ==>
         ArtSettled(u, id, now)
  }

  lemma {:induction false} SettlesTrans(t: Tables, u: Tables, v: Tables, now: int)
    ensures MatchesSettle(t, u, now) && MatchesSettle(u, v, now) ==> MatchesSettle(t, v, now)
    ensures ArtworkSettles(t, u, now) && ArtworkSettles(u, v, now) ==> ArtworkSettles(t, v, now)
  {
    hide MatchesDue, ArtworkDue, MatchSettled, ArtSettled;
  }

  /** A row that now has art, or a retry a day away or more, is settled. */
  lemma {:induction false} RowSettles(t: Tables, id: int, row: AlbumRow, now: int)
    requires id in t.albums && row.missing == t.albums[id].missing && (row.art.Some? || row.artNext >= now + DAY)
    ensures ArtworkSettles(t, t.(albums := t.albums[id := row]), now)
    ensures id !in ArtworkDue(t.(albums := t.albums[id := row]), now)
  {
    RowWrite(t, id, row, now);
    assert forall x :: x in t.albums && x != id && ArtSettled(t, x, now) ==> ArtSettled(t.(albums := t.albums[id := row]), x, now);
    hide MatchesDue, ArtworkDue;
  }

  class Library {
    var albums: map<int, AlbumRow>
    var matches: map<int, MatchRow>
    var stamp: int
    var asked: nat

    ghost function View(): Tables
      reads this
    {
      Tables(albums, matches)
    }

    constructor (t: Tables)
      ensures View() == t && asked == 0
    {
      albums, matches, stamp, asked := t.albums, t.matches, 0, 0;
    }

    method RecordResult(id: int, state: State, release: string, group: string, next: int)
      modifies this`matches
      ensures View() == Recorded(old(View()), id, state, release, group, next)
      ensures matches == old(matches)[id := MatchRow(state, release, group,
                                                     if id in old(matches) then old(matches)[id].attempts + 1 else 1, next)]
    {
      if id in matches {
        matches := matches[id := MatchRow(state, release, group, matches[id].attempts + 1, next)];
      } else {
        matches := matches[id := MatchRow(state, release, group, 1, next)];
      }
    }

    predicate SameSnapshot(a: Listed, o: Offer)
      reads this
    {
      && !o.stale && a.id in albums
      && albums[a.id].release == a.release && albums[a.id].group == a.group && albums[a.id].version == a.version
    }

    predicate AlreadyRecorded(id: int, state: State, o: Offer)
      reads this
    {
      id in matches && matches[id].state == state && matches[id].release == o.selected && matches[id].group == o.selectedGroup
    }

    /** The part of applySplitAlbumPlanTx that decides what is due. */
    method RetireFragments(fragments: set<int>)
      modifies this`albums, this`matches
      ensures View() == Retired(old(View()), fragments, stamp)
      ensures albums.Keys == old(albums).Keys && matches == old(matches) - fragments
      ensures forall id :: id in albums ==>
                albums[id] == if id in fragments then old(albums)[id].(missing := true, version := stamp) else old(albums)[id]
    {
      albums := map id | id in albums :: if id in fragments then albums[id].(missing := true, version := stamp) else albums[id];
      matches := matches - fragments;
    }

    /** The identity columns; a new identity clears the artwork schedule of an artless album. */
    method Identify(a: Listed, o: Offer) returns (differs: bool)
      requires a.id in albums
      modifies this`albums
      ensures albums == old(albums)[a.id := Identified(old(albums)[a.id], a, o, stamp)]
      ensures var row, was := albums[a.id], old(albums)[a.id];
              && row.release == (if o.release == "" then was.release else o.release)
              && row.group == (if o.group == "" then was.group else o.group)
              && row.missing == was.missing
              && row.art == (if was.art == None && o.fragments != None then o.art else was.art)
              && row.version == (if o.fragments != None || o.rewrites || a.release != o.release || a.group != o.group then stamp else was.version)
              && (if row.art == None && (a.release != o.release || a.group != o.group) then row.artNext == 0 && row.artMisses == 0
                  else row.artNext == was.artNext && row.artMisses == was.artMisses)
      ensures differs <==> a.release != o.release || a.group != o.group
    {
      var row := albums[a.id];
      if o.fragments.Some? && row.art.None? {
        row := row.(art := o.art);
      }
      if o.release != "" {
        row := row.(release := o.release);
      }
      if o.group != "" {
        row := row.(group := o.group);
      }
      differs := a.release != o.release || a.group != o.group;
      if differs && row.art.None? {
        row := row.(artNext := 0, artMisses := 0);
      }
      if o.fragments.Some? || differs || o.rewrites {
        row := row.(version := stamp);
      }
      albums := albums[a.id := row];
    }

    /** applyMusicBrainzRelease, in the columns the due queries read. */
    method ApplyRelease(a: Listed, o: Offer, state: State, next: int) returns (r: Outcome)
      modifies this`albums, this`matches, this`stamp
      ensures r.Failed? <==> o.fails || a.id !in old(albums)
      ensures r.Kept? <==> !r.Failed? && (!old(SameSnapshot(a, o)) || o.unsafe || (!Changes(a, o) && old(AlreadyRecorded(a.id, state, o))))
      ensures !r.Failed? ==> var was := old(albums)[a.id];
                var moved := o.stale || was.release != a.release || was.group != a.group || was.version != a.version;
                var news := o.fragments != None || o.rewrites || a.release != o.release || a.group != o.group;
                var known := a.id in old(matches) && old(matches)[a.id].state == state &&
                             old(matches)[a.id].release == o.selected && old(matches)[a.id].group == o.selectedGroup;
                r.Kept? <==> moved || o.unsafe || (!news && known)
      ensures r.Done? ==> r.changed == Changes(a, o) && View() == Applied(old(View()), a, o, state, next, stamp)
      ensures r.Done? ==> r.changed == (o.fragments != None || o.rewrites || a.release != o.release || a.group != o.group)
      ensures !r.Done? ==> View() == old(View())
    {
      if o.fails || a.id !in albums {
        return Failed;
      }
      if !SameSnapshot(a, o) || o.unsafe {
        return Kept;
      }
      if !Changes(a, o) && AlreadyRecorded(a.id, state, o) {
        return Kept;
      }
      stamp := stamp + 1;
      if o.fragments.Some? {
        RetireFragments(o.fragments.value);
      }
      assert View() == Retired(old(View()), Fragments(o), stamp);
      var differs := Identify(a, o);
      RecordResult(a.id, state, o.selected, o.selectedGroup, next);
      r := Done(o.fragments.Some? || differs || o.rewrites);
    }

    /** One resolve, as far as the store sees it. Each branch has its own retry time. */
    method Resolve(a: Listed, f: Finding, now: int) returns (r: Outcome)
      requires a.id in albums
      modifies this`albums, this`matches, this`stamp
      ensures MatchesSettle(old(View()), View(), now)
      ensures r.Done? ==> a.id !in MatchesDue(View(), now)
      ensures f.ProviderFailed? && f.recorded ==> matches.Keys == old(matches).Keys + {a.id} && matches[a.id].state == Errored &&
                                                  matches[a.id].next == now + 86400 && albums == old(albums)
      ensures f.Parked? && !f.fails ==> matches.Keys == old(matches).Keys + {a.id} && matches[a.id].next == now + 30 * 86400 &&
                                        matches[a.id].state == (if f.ambiguous then Ambiguous else Unmatched) && albums == old(albums)
      ensures f.Match? && r.Done? ==> a.id in matches && matches[a.id].state == Matched && matches[a.id].next == now + 7 * 86400
      ensures f.Consensus? && r.Done? ==> a.id in matches && matches[a.id].state == Ambiguous && matches[a.id].next == now + 30 * 86400
      ensures f.Unreadable? || (f.ProviderFailed? && !f.recorded) || (f.Parked? && f.fails) ==> View() == old(View())
      ensures r.Kept? ==> View() == old(View()) && (f.Match? || f.Consensus?)
    {
      match f {
        case Unreadable =>
          r := Failed;
        case ProviderFailed(recorded) =>
          if recorded {
            RecordedIsDueIff(View(), a.id, Errored, "", "", now + DAY, now);
            RecordResult(a.id, Errored, "", "", now + DAY);
          }
          r := Failed;
        case Parked(ambiguous, release, group, fails) =>
          if fails {
            return Failed;
          }
          var state := if ambiguous then Ambiguous else Unmatched;
          RecordedIsDueIff(View(), a.id, state, release, group, now + 30 * DAY, now);
          RecordResult(a.id, state, release, group, now + 30 * DAY);
          r := Done(false);
        case Match(offer) =>
          r := ApplyRelease(a, offer, Matched, now + 7 * DAY);
        case Consensus(offer) =>
          r := ApplyRelease(a, offer.(release := ""), Ambiguous, now + 30 * DAY);
      }
    }

    // -------------------------------------------------------------------
    // RunWithProgress

    /** DueMusicBrainzAlbums: the rows as they are now. */
    method ListDue(now: int) returns (page: seq<Listed>)
      ensures ListedIds(page) == MatchesDue(View(), now) && |page| == |MatchesDue(View(), now)|
      ensures forall i :: 0 <= i < |page| ==> page[i].id in albums && page[i] == Snapshot(page[i].id, albums[page[i].id])
    {
      var ids := Enumerate(MatchesDue(Tables(albums, matches), now));
      NoRepeatsCount(ids);
      page := [];
      var i := 0;
      while i < |ids|
        invariant 0 <= i <= |ids| && |page| == i
        invariant forall k :: 0 <= k < i ==> page[k].id == ids[k]
        invariant forall k :: 0 <= k < i ==> page[k].id in albums && page[k] == Snapshot(page[k].id, albums[page[k].id])
      {
        assert ids[i] in Elements(ids);
        page := page + [Snapshot(ids[i], albums[ids[i]])];
        i := i + 1;
      }
      assert forall x :: x in ids <==> x in ListedIds(page);
    }

    /** One pass over the albums listed at its start. */
    method ResolvePass(page: seq<Listed>, w: World, now: int) returns (applied: nat, stopped: bool)
      requires ListedIds(page) == MatchesDue(View(), now) && ListedIds(page) <= albums.Keys
      modifies this
      ensures MatchesSettle(old(View()), View(), now)
      ensures applied > 0 ==> MatchesDue(View(), now) < old(MatchesDue(View(), now))
      ensures stopped ==> w.canceled(asked)
    {
      applied, stopped := 0, false;
      ghost var start := MatchesDue(View(), now);
      var i := 0;
      while i < |page|
        invariant 0 <= i <= |page| && MatchesSettle(old(View()), View(), now)
        invariant applied > 0 ==> MatchesDue(View(), now) < start
      {
        if w.canceled(asked) {
          return applied, true;
        }
        assert page[i].id in ListedIds(page);
        ghost var before := View();
        var r := Resolve(page[i], w.find(asked), now);
        SettlesTrans(old(View()), before, View(), now);
        asked := asked + 1;
        if w.canceled(asked) {
          return applied, true;
        }
        if r == Done(true) {
          applied := applied + 1;
        }
        i := i + 1;
      }
    }

    /** RunWithProgress: every further pass strictly lowers the due count, so there are at most as
        many passes as albums leave the due set, plus one; what left it is missing, matched or put
        off by a day or more. */
    method RunWithProgress(w: World, now: int) returns (end: Ending, passes: nat)
      modifies this
      ensures MatchesSettle(old(View()), View(), now)
      ensures forall id :: id in old(MatchesDue(View(), now)) && id !in MatchesDue(View(), now) ==>
                albums[id].missing || (id in matches && (matches[id].state == Matched || matches[id].next >= now + 86400))
      ensures passes <= |old(MatchesDue(View(), now))| - |MatchesDue(View(), now)| + 1
      ensures end.Drained? || end.Settled? || end.Canceled? || end.QueryFailed?
      ensures end.Drained? ==> MatchesDue(View(), now) == {}
      ensures end.Settled? ==> MatchesDue(View(), now) != {} && passes > 0
      ensures end.QueryFailed? ==> w.queryFails(asked)
      ensures end.Canceled? ==> w.canceled(asked)
    {
      passes := 0;
      ghost var start := MatchesDue(View(), now);
      while true
        invariant MatchesSettle(old(View()), View(), now) && passes <= |start| - |MatchesDue(View(), now)|
        decreases |MatchesDue(View(), now)|
      {
        if w.queryFails(asked) {
          return QueryFailed, passes;
        }
        ghost var before := View();
        var due := |MatchesDue(Tables(albums, matches), now)|;
        if due == 0 {
          return Drained, passes;
        }
        asked := asked + 1;
        if w.queryFails(asked) {
          return QueryFailed, passes;
        }
        var page := ListDue(now);
        passes := passes + 1;
        var applied, stopped := ResolvePass(page, w, now);
        SettlesTrans(old(View()), before, View(), now);
        SubsetCardinality(MatchesDue(View(), now), MatchesDue(before, now));
        if stopped {
          return Canceled, passes;
        }
        if w.queryFails(asked) {
          return QueryFailed, passes;
        }
        var remaining := |MatchesDue(Tables(albums, matches), now)|;
        if remaining == 0 {
          return Drained, passes;
        }
        if remaining >= due && applied == 0 {
          return Settled, passes;
        }
      }
    }

    // -------------------------------------------------------------------
    // runAlbumArtStage

    /** SetAlbumArtAtNextSequence. */
    method AttachArt(id: int, art: int) returns (attached: bool)
      modifies this`albums, this`stamp
      ensures attached <==> id in old(albums) && old(albums)[id].art.None?
      ensures albums == if attached then old(albums)[id := old(albums)[id].(art := Some(art), version := stamp)] else old(albums)
    {
      attached := id in albums && albums[id].art.None?;
      if attached {
        stamp := stamp + 1;
        albums := albums[id := albums[id].(art := Some(art), version := stamp)];
      }
    }

    /** MarkAlbumArtAttempt: a day after a transient failure; after a miss a week, and thirty days
        from the second miss on. A miss is two statements, and the second may fail alone. */
    method MarkArtAttempt(id: int, miss: bool, fault: Fault, now: int) returns (failed: bool)
      requires id in albums
      modifies this`albums
      ensures albums == old(albums)[id := Marked(old(albums)[id], miss, fault, now)]
      ensures fault.FirstFails? ==> albums == old(albums)
      ensures !fault.FirstFails? && !miss ==> albums == old(albums)[id := old(albums)[id].(artNext := now + 86400)]
      ensures !fault.FirstFails? && miss ==>
                var days := if old(albums)[id].artMisses == 0 || fault.SecondFails? then 7 else 30;
                albums == old(albums)[id := old(albums)[id].(artMisses := old(albums)[id].artMisses + 1, artNext := now + days * 86400)]
      ensures failed <==> fault.FirstFails? || (miss && fault.SecondFails?)
    {
      if fault.FirstFails? {
        assert albums == albums[id := albums[id]];
        return true;
      }
      if !miss {
        albums := albums[id := albums[id].(artNext := now + DAY)];
        return false;
      }
      albums := albums[id := albums[id].(artMisses := albums[id].artMisses + 1, artNext := now + 7 * DAY)];
      if fault.SecondFails? {
        return true;
      }
      if albums[id].artMisses > 1 {
        albums := albums[id := albums[id].(artNext := now + 30 * DAY)];
      }
      failed := false;
    }

    /** One album of a page: look it up, then attach what was found or schedule a retry. */
    method AttemptAlbum(id: int, a: Attempt, now: int) returns (progressed: bool)
      requires id in albums
      modifies this`albums, this`stamp
      ensures progressed <==> !NoProgress(a)
      ensures progressed <==> if a.lookup.Found? && a.lookup.saved then !a.attachFails
                              else a.fault.Sound? || (a.fault.SecondFails? && !a.lookup.NoImage?)
      ensures ArtworkSettles(old(View()), View(), now)
      ensures progressed ==> id !in ArtworkDue(View(), now)
    {
      if a.rival.Some? && albums[id].art.None? {
        RowSettles(View(), id, albums[id].(art := a.rival, version := stamp + 1), now);
        var _ := AttachArt(id, a.rival.value);
      }
      ghost var contested := View();
      assert ArtworkSettles(old(View()), contested, now);
      progressed := AttachOrSchedule(id, a, now);
      SettlesTrans(old(View()), contested, View(), now);
    }

    method AttachOrSchedule(id: int, a: Attempt, now: int) returns (progressed: bool)
      requires id in albums
      modifies this`albums, this`stamp
      ensures progressed <==> !NoProgress(a)
      ensures progressed <==> if a.lookup.Found? && a.lookup.saved then !a.attachFails
                              else a.fault.Sound? || (a.fault.SecondFails? && !a.lookup.NoImage?)
      ensures ArtworkSettles(old(View()), View(), now)
      ensures progressed ==> id !in ArtworkDue(View(), now)
    {
      if a.lookup.Found? && a.lookup.saved {
        if a.attachFails {
          return false;
        }
        if albums[id].art.None? {
          RowSettles(View(), id, albums[id].(art := Some(a.lookup.art), version := stamp + 1), now);
        }
        var _ := AttachArt(id, a.lookup.art);
        return true;
      }
      if !a.fault.FirstFails? {
        RowSettles(View(), id, Marked(albums[id], a.lookup.NoImage?, a.fault, now), now);
      } else {
        assert albums == albums[id := albums[id]];
      }
      var failed := MarkArtAttempt(id, a.lookup.NoImage?, a.fault, now);
      progressed := !failed;
    }

    /** One page of the album artwork stage. */
    method AttemptPage(page: seq<int>, w: World, now: int) returns (progressed: bool, stopped: bool)
      requires Elements(page) <= ArtworkDue(View(), now)
      modifies this
      ensures ArtworkSettles(old(View()), View(), now)
      ensures progressed ==> ArtworkDue(View(), now) < old(ArtworkDue(View(), now))
      ensures asked >= old(asked) && (stopped ==> w.canceled(asked))
      ensures !stopped && page != [] && !progressed ==> exists i :: old(asked) <= i <= asked && NoProgress(w.attempt(i))
    {
      progressed, stopped := false, false;
      ghost var start := ArtworkDue(View(), now);
      var i := 0;
      while i < |page|
        invariant 0 <= i <= |page| && ArtworkSettles(old(View()), View(), now)
        invariant progressed ==> ArtworkDue(View(), now) < start
        invariant asked >= old(asked)
        invariant i > 0 && !progressed ==> exists k :: old(asked) <= k <= asked && NoProgress(w.attempt(k))
      {
        if w.canceled(asked) {
          return progressed, true;
        }
        asked := asked + 1;
        if w.canceled(asked) {
          return progressed, true;
        }
        assert page[i] in Elements(page);
        ghost var before := View();
        var done := AttemptAlbum(page[i], w.attempt(asked), now);
        SettlesTrans(old(View()), before, View(), now);
        if done {
          progressed := true;
        }
        i := i + 1;
      }
    }

    /** runAlbumArtStage: every progressing page strictly lowers the due count, and the stage ends
        with no due album unless it was cancelled, hit its deadline or failed; every album that
        left the due set has art or a retry at least a day away. */
    method RunAlbumArtStage(w: World, now: int) returns (end: Ending, pages: nat)
      modifies this
      ensures ArtworkSettles(old(View()), View(), now)
      ensures forall id :: id in old(ArtworkDue(View(), now)) && id !in ArtworkDue(View(), now) ==>
                albums[id].art != None || albums[id].artNext >= now + 86400
      ensures pages <= |old(ArtworkDue(View(), now))| - |ArtworkDue(View(), now)| + 1
      ensures end.Drained? || end.Canceled? || end.Late? || end.Stalled? || end.QueryFailed?
      ensures end.Drained? ==> ArtworkDue(View(), now) == {}
      ensures end.Canceled? ==> w.canceled(asked)
      ensures end.Late? ==> w.late(asked)
      ensures end.QueryFailed? ==> w.queryFails(asked)
      ensures end.Stalled? ==> exists i :: old(asked) <= i <= asked && NoProgress(w.attempt(i))
    {
      pages := 0;
      ghost var start := ArtworkDue(View(), now);
      while true
        invariant asked >= old(asked)
        invariant ArtworkSettles(old(View()), View(), now) && pages <= |start| - |ArtworkDue(View(), now)|
        decreases |ArtworkDue(View(), now)|
      {
        if w.canceled(asked) {
          return Canceled, pages;
        }
        if w.late(asked) {
          return Late, pages;
        }
        if w.queryFails(asked) {
          return QueryFailed, pages;
        }
        ghost var before := View();
        var all := Enumerate(ArtworkDue(Tables(albums, matches), now));
        var page := all[..Min(PER_RUN, |all|)];
        if |page| == 0 {
          assert all == [] && ArtworkDue(before, now) == Elements(all);
          return Drained, pages;
        }
        assert Elements(page) <= Elements(all);
        pages := pages + 1;
        var progressed, stopped := AttemptPage(page, w, now);
        SettlesTrans(old(View()), before, View(), now);
        SubsetCardinality(ArtworkDue(View(), now), ArtworkDue(before, now));
        if stopped {
          return Canceled, pages;
        }
        if !progressed {
          return Stalled, pages;
        }
      }
    }
  }
}
