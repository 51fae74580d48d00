/** planSplitAlbumReconciliation, staleFragmentEvidence (internal/store/split_album_reconciliation.go)
    and sameMusicBrainzSnapshot (internal/store/musicbrainz.go): when the fragments of a split
    album may be folded into the anchor. */
module SplitPlan {
  import opened Common
  import R = ReleaseUnion
  import M = SplitAlbumMerge

  // ---------------------------------------------------------------------
  // Snapshots taken before the network lookup

  datatype SnapTrack = SnapTrack(id: int, index: int, disc: int, title: string, durationMs: int)

  datatype Snapshot = Snapshot(id: int, title: string, year: int, release: string, group: string, version: int, tracks: seq<SnapTrack>)

  predicate SameHeader(x: Snapshot, y: Snapshot) {
    x.id == y.id && x.title == y.title && x.year == y.year && x.release == y.release && x.group == y.group && x.version == y.version
  }

  function ById(tracks: seq<SnapTrack>): map<int, SnapTrack> {
    if tracks == [] then map[] else ById(tracks[..|tracks| - 1])[tracks[|tracks| - 1].id := tracks[|tracks| - 1]]
  }

  predicate DistinctTracks(tracks: seq<SnapTrack>) {
    forall i, j :: 0 <= i < j < |tracks| ==> tracks[i].id != tracks[j].id
  }

  /** sameMusicBrainzSnapshot: equal counts, and every expected track found unchanged. */
  predicate SameSnapshot(expected: Snapshot, current: Snapshot) {
    && SameHeader(expected, current) && |expected.tracks| == |current.tracks|
    && forall i :: 0 <= i < |expected.tracks| ==>
         var t := expected.tracks[i]; t.id in ById(current.tracks) && ById(current.tracks)[t.id] == t
  }

  lemma {:induction false} ByIdHolds(tracks: seq<SnapTrack>, i: nat)
    requires DistinctTracks(tracks) && i < |tracks|
    ensures tracks[i].id in ById(tracks) && ById(tracks)[tracks[i].id] == tracks[i]
  {
    if i < |tracks| - 1 {
      ByIdHolds(tracks[..|tracks| - 1], i);
    }
  }

  lemma {:induction false} ByIdKeys(tracks: seq<SnapTrack>)
    requires DistinctTracks(tracks)
    ensures |ById(tracks)| == |tracks| && forall id :: id in ById(tracks) ==> ById(tracks)[id].id == id && ById(tracks)[id] in tracks
  {
    if tracks != [] {
      var rest, last := tracks[..|tracks| - 1], tracks[|tracks| - 1];
      ByIdKeys(rest);
      assert tracks == rest + [last];
      assert last.id !in ById(rest);
    }
  }

  lemma {:induction false} SnapshotCheck(expected: Snapshot, current: Snapshot)
    requires DistinctTracks(expected.tracks) && DistinctTracks(current.tracks)
    ensures SameSnapshot(expected, current) <==>
            SameHeader(expected, current) && forall t :: t in expected.tracks <==> t in current.tracks
  {
    ByIdKeys(expected.tracks);
    ByIdKeys(current.tracks);
    forall i | 0 <= i < |expected.tracks|
      ensures expected.tracks[i].id in ById(expected.tracks) && ById(expected.tracks)[expected.tracks[i].id] == expected.tracks[i]
    {
      ByIdHolds(expected.tracks, i);
    }
    forall i | 0 <= i < |current.tracks|
      ensures current.tracks[i].id in ById(current.tracks) && ById(current.tracks)[current.tracks[i].id] == current.tracks[i]
    {
      ByIdHolds(current.tracks, i);
    }
    hide ById, DistinctTracks, SameHeader;
    var before, now := ById(expected.tracks), ById(current.tracks);
    if SameSnapshot(expected, current) {
      forall id | id in before
        ensures id in now && now[id] == before[id]
      {
        var i :| 0 <= i < |expected.tracks| && expected.tracks[i] == before[id];
      }
      SubsetCardinality(before.Keys, now.Keys);
      assert |before.Keys| == |now.Keys|;
    }
    if forall t :: t in expected.tracks <==> t in current.tracks {
      SameTracksSameMap(before, now, expected.tracks, current.tracks);
    }
  }

  /** The check is exact and ignores order: it passes if and only if the header is unchanged and
      the two track lists hold the same tracks. A track that appeared, vanished or changed
      fails it, whatever else happened to the list. */
  lemma {:induction false} SnapshotCheckIsExact(expected: Snapshot, current: Snapshot)
    requires forall i, j :: 0 <= i < j < |expected.tracks| ==> expected.tracks[i].id != expected.tracks[j].id
    requires forall i, j :: 0 <= i < j < |current.tracks| ==> current.tracks[i].id != current.tracks[j].id
    ensures SameSnapshot(expected, current) <==>
            && expected.id == current.id && expected.title == current.title && expected.year == current.year
            && expected.release == current.release && expected.group == current.group && expected.version == current.version
            && forall t :: t in expected.tracks <==> t in current.tracks
  {
    hide SameSnapshot;
    SnapshotCheck(expected, current);
  }

  lemma {:induction false} SameTracksSameMap(before: map<int, SnapTrack>, now: map<int, SnapTrack>, x: seq<SnapTrack>, y: seq<SnapTrack>)
    requires forall t :: t in x <==> t in y
    requires (forall id :: id in before ==> before[id].id == id && before[id] in x) && forall t :: t in x ==> t.id in before && before[t.id] == t
    requires (forall id :: id in now ==> now[id].id == id && now[id] in y) && forall t :: t in y ==> t.id in now && now[t.id] == t
    ensures before == now
  {
    forall id
      ensures id in before <==> id in now
      ensures id in before ==> before[id] == now[id]
    {
      if id in before {
        assert before[id] in y;
      }
      if id in now {
        assert now[id] in x;
      }
    }
  }

  function SnapshotIds(snapshots: seq<Snapshot>): set<int> {
    set i | 0 <= i < |snapshots| :: snapshots[i].id
  }

  /** staleFragmentEvidence: without recorded snapshots nothing can be stale. */
  method StaleFragmentEvidence(snapshots: Option<seq<Snapshot>>, fragments: set<int>, current: map<int, Snapshot>) returns (stale: bool)
    requires fragments <= current.Keys
    ensures snapshots.None? ==> !stale
    ensures snapshots.Some? ==>
              (stale <==> |snapshots.value| != |fragments| ||
                          exists i :: 0 <= i < |snapshots.value| && !Fresh(snapshots.value[i], fragments, current))
  {
    if snapshots.None? {
      return false;
    }
    var expected := snapshots.value;
    if |expected| != |fragments| {
      return true;
    }
    var i := 0;
    while i < |expected|
      invariant 0 <= i <= |expected| && forall k :: 0 <= k < i ==> Fresh(expected[k], fragments, current)
    {
      if expected[i].id !in fragments || !SameSnapshot(expected[i], current[expected[i].id]) {
        assert !Fresh(expected[i], fragments, current);
        return true;
      }
      i := i + 1;
    }
    stale := false;
  }

  predicate Fresh(s: Snapshot, fragments: set<int>, current: map<int, Snapshot>)
    requires fragments <= current.Keys
  {
    s.id in fragments && SameSnapshot(s, current[s.id])
  }

  /** With distinct snapshots, evidence is current if and only if the fragments planned now are
      exactly those the lookup saw, each one unchanged. */
  lemma {:induction false} CurrentEvidenceIsExact(snapshots: seq<Snapshot>, fragments: set<int>, current: map<int, Snapshot>)
    requires fragments <= current.Keys && forall i, j :: 0 <= i < j < |snapshots| ==> snapshots[i].id != snapshots[j].id
    ensures (|snapshots| == |fragments| && forall i :: 0 <= i < |snapshots| ==> Fresh(snapshots[i], fragments, current)) <==>
            (SnapshotIds(snapshots) == fragments && forall i :: 0 <= i < |snapshots| ==> SameSnapshot(snapshots[i], current[snapshots[i].id]))
  {
    hide SameSnapshot;
    IdsCounted(snapshots);
    forall i | 0 <= i < |snapshots|
      ensures snapshots[i].id in SnapshotIds(snapshots)
    {
    }
    if |snapshots| == |fragments| && forall i :: 0 <= i < |snapshots| ==> Fresh(snapshots[i], fragments, current) {
      assert SnapshotIds(snapshots) <= fragments;
      SubsetCardinality(SnapshotIds(snapshots), fragments);
    }
  }

  lemma {:induction false} IdsCounted(snapshots: seq<Snapshot>)
    requires forall i, j :: 0 <= i < j < |snapshots| ==> snapshots[i].id != snapshots[j].id
    ensures |SnapshotIds(snapshots)| == |snapshots|
  {
    var ids := seq(|snapshots|, i requires 0 <= i < |snapshots| => snapshots[i].id);
    assert forall i :: 0 <= i < |ids| ==> ids[i] == snapshots[i].id;
    R.DistinctValues(ids, SnapshotIds(snapshots));
  }

  // ---------------------------------------------------------------------
  // The plan

  /** `fold` is the trimmed, case-folded title, `path` the normalized title of the album's
      directory, if its tracks agree on one, and `matchedBefore` says that an
      earlier match left release ids in the match table. */
  datatype AlbumRow = AlbumRow(artist: int, fold: string, path: Option<string>, year: int, release: string, group: string,
                               art: Option<int>, missing: bool, matchedBefore: bool)

  /** `pathDisc` is the disc number named by the track's directory, or 0. */
  datatype TrackRow = TrackRow(album: int, disc: int, index: int, title: string, durationMs: int, missing: bool, pathDisc: int)

  datatype Library = Library(albums: map<int, AlbumRow>, tracks: map<int, TrackRow>)

  datatype Canonical = Canonical(release: string, group: string, listing: R.Release)

  datatype Outcome =
    | NoFragments
    | Unsafe
    | Safe(plan: M.Plan, tracks: seq<R.LocalTrack>, matched: R.Matches)

  predicate TitlesCompatible(x: AlbumRow, y: AlbumRow) {
    x.fold == y.fold || (x.path.Some? && y.path.Some? && x.path == y.path)
  }

  predicate Compatible(lib: Library, anchor: int, group: string, id: int)
    requires anchor in lib.albums
  {
    && id in lib.albums && !lib.albums[id].missing && lib.albums[id].year == lib.albums[anchor].year
    && TitlesCompatible(lib.albums[anchor], lib.albums[id])
    && (id == anchor || lib.albums[id].group == "" || lib.albums[id].group == group)
  }

  ghost function CompatibleSet(lib: Library, anchor: int, group: string): set<int>
    requires anchor in lib.albums
  {
    set id | id in lib.albums && Compatible(lib, anchor, group, id)
  }

  /** No identity of its own, or exactly the release group at hand. */
  predicate Unclaimed(al: AlbumRow, group: string) {
    (al.release == "" && al.group == "" && !al.matchedBefore) || (al.release == "" && al.group != "" && al.group == group)
  }

  /** The album has tracks and all of them are present. */
  predicate Whole(lib: Library, id: int) {
    && (exists t :: t in lib.tracks && lib.tracks[t].album == id)
    && (forall t :: t in lib.tracks && lib.tracks[t].album == id ==> !lib.tracks[t].missing)
  }

  ghost function Fragments(lib: Library, anchor: int, group: string): set<int>
    requires anchor in lib.albums
  {
    CompatibleSet(lib, anchor, group) - {anchor}
  }

  ghost predicate FragmentsFit(lib: Library, anchor: int, group: string)
    requires anchor in lib.albums
  {
    forall id :: id in Fragments(lib, anchor, group) ==> Unclaimed(lib.albums[id], group) && Whole(lib, id)
  }

  function Arts(lib: Library, ids: set<int>): set<int> {
    set id | id in ids && id in lib.albums && lib.albums[id].art.Some? :: lib.albums[id].art.value
  }

  /** The art of the anchor as the plan sees it: none when the anchor itself is not compatible. */
  function AnchorArt(lib: Library, anchor: int, group: string): Option<int>
    requires anchor in lib.albums
  {
    if Compatible(lib, anchor, group, anchor) then lib.albums[anchor].art else None
  }

  /** An artless anchor takes the fragments' art, if they agree on one. */
  predicate ArtChosen(anchorArt: Option<int>, arts: set<int>, chosen: Option<int>) {
    if anchorArt.Some? || arts == {} then chosen.None? else chosen.Some? && arts == {chosen.value}
  }

  predicate Merging(lib: Library, ids: set<int>, t: int) {
    t in lib.tracks && !lib.tracks[t].missing && lib.tracks[t].album in ids
  }

  function LocalOf(lib: Library, compatible: set<int>, t: int): R.LocalTrack
    requires t in lib.tracks
  {
    var tr := lib.tracks[t];
    R.LocalTrack(t, if tr.disc <= 0 && tr.pathDisc > 0 && tr.album in compatible then tr.pathDisc else tr.disc, tr.index, tr.title, tr.durationMs)
  }

  /** `tracks` lists the present tracks of these albums by id. */
  ghost predicate IsUnion(lib: Library, ids: set<int>, compatible: set<int>, tracks: seq<R.LocalTrack>) {
    && (forall i, j :: 0 <= i < j < |tracks| ==> tracks[i].id < tracks[j].id)
    && (forall i :: 0 <= i < |tracks| ==> Merging(lib, ids, tracks[i].id) && tracks[i] == LocalOf(lib, compatible, tracks[i].id))
    && (forall t :: Merging(lib, ids, t) ==> exists i :: 0 <= i < |tracks| && tracks[i].id == t)
  }

  predicate ReleaseTaken(lib: Library, anchor: int, release: string) {
    release != "" && exists id :: id in lib.albums && id != anchor && lib.albums[id].release == release
  }

  /** What an earlier resolve stored about a candidate; evidence that does not parse is neither
      complete nor a list of recordings. */
  datatype Stored = Stored(complete: bool, recordings: Option<seq<string>>)

  predicate Complete(s: Stored) {
    s.complete && s.recordings.Some?
  }

  /** Two complete stored editions list different recordings. */
  predicate Divergent(stored: seq<Stored>) {
    exists i, j :: 0 <= i < j < |stored| && Complete(stored[i]) && Complete(stored[j]) && stored[i].recordings != stored[j].recordings
  }

  /** Everything the plan must establish before anything is written; `current` says that the
      recorded snapshots are still current, and `divergent` that stored candidates disagree. */
  ghost predicate MayMerge(lib: Library, norm: R.Title, anchor: int, c: Canonical, current: bool, divergent: bool,
                           loves: M.Opinions, ratings: M.Opinions, tracks: seq<R.LocalTrack>)
    requires anchor in lib.albums
  {
    var fragments := Fragments(lib, anchor, c.group);
    && FragmentsFit(lib, anchor, c.group)
    && (AnchorArt(lib, anchor, c.group).None? ==> |Arts(lib, fragments)| <= 1)
    && current && !divergent
    && R.Match(norm, tracks, c.listing).Some?
    && !M.Conflict(loves, {anchor} + fragments) && !M.Conflict(ratings, {anchor} + fragments)
    && !ReleaseTaken(lib, anchor, c.release)
  }

  /** A present album of the anchor's year, and of its folded title or of its directory's. */
  predicate Alike(anchor: AlbumRow, al: AlbumRow) {
    !al.missing && al.year == anchor.year && (al.fold == anchor.fold || (al.path == anchor.path && anchor.path != None))
  }

  /** An album that is no release of its own: it is of this release group, or of none it ever matched. */
  predicate Loose(al: AlbumRow, group: string) {
    al.release == "" && if al.group == "" then !al.matchedBefore else al.group == group
  }

  /** The album has tracks, and none of them is missing. */
  predicate AllThere(lib: Library, id: int) {
    && (exists t :: t in lib.tracks && lib.tracks[t].album == id)
    && !exists t :: t in lib.tracks && lib.tracks[t].album == id && lib.tracks[t].missing
  }

  method CompatibleAlbums(lib: Library, anchor: int, group: string) returns (compatible: set<int>)
    requires anchor in lib.albums
    ensures compatible == CompatibleSet(lib, anchor, group)
    ensures forall id :: id in compatible <==> id in lib.albums && Alike(lib.albums[anchor], lib.albums[id]) &&
                                               (id == anchor || lib.albums[id].group == "" || lib.albums[id].group == group)
  {
    var ids := Sorted(lib.albums.Keys);
    assert forall id :: id in Elements(ids) <==> id in lib.albums;
    compatible := {};
    var i := 0;
    while i < |ids|
      invariant 0 <= i <= |ids|
      invariant forall id :: id in compatible <==> id in ids[..i] && Compatible(lib, anchor, group, id)
    {
      if Compatible(lib, anchor, group, ids[i]) {
        compatible := compatible + {ids[i]};
      }
      i := i + 1;
    }
    assert ids[..|ids|] == ids;
    forall id
      ensures id in compatible <==> id in CompatibleSet(lib, anchor, group)
    {
      assert id in Elements(ids) <==> id in lib.albums;
    }
  }

  method CheckFragments(lib: Library, fragments: set<int>, group: string) returns (fit: bool)
    requires fragments <= lib.albums.Keys
    ensures fit <==> forall id :: id in fragments ==> Unclaimed(lib.albums[id], group) && Whole(lib, id)
  {
    var ids := Sorted(fragments);
    assert forall id :: id in Elements(ids) <==> id in fragments;
    var i := 0;
    while i < |ids|
      invariant 0 <= i <= |ids|
      invariant forall k :: 0 <= k < i ==> ids[k] in lib.albums && Unclaimed(lib.albums[ids[k]], group) && Whole(lib, ids[k])
    {
      assert ids[i] in Elements(ids);
      if !Unclaimed(lib.albums[ids[i]], group) || !Whole(lib, ids[i]) {
        return false;
      }
      i := i + 1;
    }
    fit := true;
    forall id | id in fragments
      ensures Unclaimed(lib.albums[id], group) && Whole(lib, id)
    {
      assert id in Elements(ids);
      var k :| 0 <= k < |ids| && ids[k] == id;
    }
  }

  /** The present tracks of these albums among `all`, in its order. */
  function Listed(lib: Library, ids: set<int>, compatible: set<int>, all: seq<int>): seq<R.LocalTrack> {
    if all == [] then []
    else
      var rest, t := Listed(lib, ids, compatible, all[..|all| - 1]), all[|all| - 1];
      if Merging(lib, ids, t) then rest + [LocalOf(lib, compatible, t)] else rest
  }

  /** Ascending, and each one a present track of these albums out of `all`. */
  ghost predicate ListedFrom(lib: Library, ids: set<int>, compatible: set<int>, all: seq<int>, tracks: seq<R.LocalTrack>) {
    && (forall i, j :: 0 <= i < j < |tracks| ==> tracks[i].id < tracks[j].id)
    && (forall i :: 0 <= i < |tracks| ==>
          tracks[i].id in all && Merging(lib, ids, tracks[i].id) && tracks[i] == LocalOf(lib, compatible, tracks[i].id))
  }

  lemma {:induction false} ListedMembers(lib: Library, ids: set<int>, compatible: set<int>, all: seq<int>)
    requires Common.Ascending(all)
    ensures ListedFrom(lib, ids, compatible, all, Listed(lib, ids, compatible, all))
  {
    if all != [] {
      var init, t := all[..|all| - 1], all[|all| - 1];
      ListedMembers(lib, ids, compatible, init);
      var before := Listed(lib, ids, compatible, init);
      assert all == init + [t];
      forall i | 0 <= i < |before|
        ensures before[i].id in all && before[i].id < t
      {
        assert before[i].id in init;
      }
    }
  }

  lemma {:induction false} ListedCovers(lib: Library, ids: set<int>, compatible: set<int>, all: seq<int>, t: int)
    requires t in all && Merging(lib, ids, t)
    ensures exists i :: 0 <= i < |Listed(lib, ids, compatible, all)| && Listed(lib, ids, compatible, all)[i].id == t
  {
    var init, last := all[..|all| - 1], all[|all| - 1];
    var tracks, before := Listed(lib, ids, compatible, all), Listed(lib, ids, compatible, init);
    if t == last {
      assert tracks[|before|].id == t;
    } else {
      assert all == init + [last];
      ListedCovers(lib, ids, compatible, init, t);
      var i :| 0 <= i < |before| && before[i].id == t;
      assert tracks[i] == before[i];
    }
  }

  method UnionTracks(lib: Library, ids: set<int>, compatible: set<int>) returns (tracks: seq<R.LocalTrack>)
    ensures IsUnion(lib, ids, compatible, tracks)
  {
    var all := Sorted(lib.tracks.Keys);
    tracks := [];
    var i := 0;
    while i < |all|
      invariant 0 <= i <= |all| && tracks == Listed(lib, ids, compatible, all[..i])
    {
      assert all[..i + 1][..i] == all[..i];
      if Merging(lib, ids, all[i]) {
        tracks := tracks + [LocalOf(lib, compatible, all[i])];
      }
      i := i + 1;
    }
    assert all[..|all|] == all;
    ListedMembers(lib, ids, compatible, all);
    forall t | Merging(lib, ids, t)
      ensures exists k :: 0 <= k < |tracks| && tracks[k].id == t
    {
      assert t in Elements(all);
      ListedCovers(lib, ids, compatible, all, t);
    }
  }

  /** The union in the columns of its rows: all present tracks of these albums, in the order of
      their ids, with the directory's disc where a compatible album's tag names none. */
  lemma {:induction false} UnionInRows(lib: Library, ids: set<int>, compatible: set<int>, tracks: seq<R.LocalTrack>)
    requires IsUnion(lib, ids, compatible, tracks)
    ensures forall i, j :: 0 <= i < j < |tracks| ==> tracks[i].id < tracks[j].id
    ensures forall i :: 0 <= i < |tracks| ==>
              tracks[i].id in lib.tracks && !lib.tracks[tracks[i].id].missing && lib.tracks[tracks[i].id].album in ids
    ensures forall t :: t in lib.tracks && !lib.tracks[t].missing && lib.tracks[t].album in ids ==>
              exists i :: 0 <= i < |tracks| && tracks[i].id == t
    ensures forall i :: 0 <= i < |tracks| ==>
              var tr, t := lib.tracks[tracks[i].id], tracks[i];
              && t.index == tr.index && t.title == tr.title && t.durationMs == tr.durationMs
              && t.disc == if tr.disc > 0 || tr.pathDisc <= 0 || tr.album !in compatible then tr.disc else tr.pathDisc
  {
    forall t | t in lib.tracks && !lib.tracks[t].missing && lib.tracks[t].album in ids
      ensures exists i :: 0 <= i < |tracks| && tracks[i].id == t
    {
      assert Merging(lib, ids, t);
    }
  }

  /** Fragments that disagree on art leave an artless anchor without a choice. */
  method ChooseArt(anchorArt: Option<int>, arts: set<int>) returns (agreed: bool, art: Option<int>)
    ensures agreed <==> (anchorArt.None? ==> |arts| <= 1)
    ensures agreed ==> ArtChosen(anchorArt, arts, art)
    ensures agreed ==> art.None? == (anchorArt.Some? || arts == {}) && (art.Some? ==> art.value in arts)
  {
    agreed, art := true, None;
    if anchorArt.None? {
      if |arts| > 1 {
        return false, None;
      }
      if arts != {} {
        SomeId(arts);
        var a: int :| a in arts;
        OneMember(arts, a);
        art := Some(a);
      }
    }
  }

  /** A safe outcome names the fragments, their owners, the chosen art and the matched union. */
  ghost predicate Planned(lib: Library, norm: R.Title, anchor: int, c: Canonical, tracks: seq<R.LocalTrack>, r: Outcome)
    requires anchor in lib.albums
  {
    var all := CompatibleSet(lib, anchor, c.group);
    r.Safe? ==>
      && r.tracks == tracks && r.plan.fragments == all - {anchor} && Some(r.matched) == R.Match(norm, tracks, c.listing)
      && r.plan.artists == (set id | id in all && id in lib.albums :: lib.albums[id].artist)
      && ArtChosen(AnchorArt(lib, anchor, c.group), Arts(lib, all - {anchor}), r.plan.art)
  }

  /** divergentCompleteEditionsTx: each complete edition against the first one. */
  method DivergentCompleteEditions(stored: seq<Stored>) returns (divergent: bool)
    ensures divergent <==> Divergent(stored)
    ensures divergent <==> exists i, j :: 0 <= i < j < |stored| && stored[i].complete && stored[j].complete &&
                                          stored[i].recordings != None && stored[j].recordings != None &&
                                          stored[i].recordings != stored[j].recordings
  {
    var reference: Option<seq<string>> := None;
    var i := 0;
    while i < |stored|
      invariant 0 <= i <= |stored|
      invariant reference.None? ==> forall k :: 0 <= k < i ==> !Complete(stored[k])
      invariant reference.Some? ==> exists k :: 0 <= k < i && Complete(stored[k]) && stored[k].recordings == reference
      invariant reference.Some? ==> forall k :: 0 <= k < i && Complete(stored[k]) ==> stored[k].recordings == reference
    {
      if Complete(stored[i]) {
        if reference.None? {
          reference := stored[i].recordings;
        } else if reference != stored[i].recordings {
          return true;
        }
      }
      i := i + 1;
    }
    divergent := false;
  }

  /** The checks one after another: fragments, artwork, recorded evidence, stored editions, the
      match, profiles, and the release id. */
  method Judge(lib: Library, norm: R.Title, anchor: int, c: Canonical, snapshots: Option<seq<Snapshot>>, now: map<int, Snapshot>,
               stored: seq<Stored>, loves: M.Opinions, ratings: M.Opinions, all: set<int>, union: seq<R.LocalTrack>) returns (r: Outcome)
    requires anchor in lib.albums && lib.albums.Keys <= now.Keys && all == CompatibleSet(lib, anchor, c.group)
    ensures r.Safe? || r.Unsafe?
    ensures r.Safe? <==> MayMerge(lib, norm, anchor, c, Current(snapshots, all - {anchor}, now), Divergent(stored), loves, ratings, union)
    ensures Planned(lib, norm, anchor, c, union, r)
  {
    hide Compatible, Unclaimed, Whole, R.Match, M.Conflict, ArtChosen, AnchorArt, Arts, ReleaseTaken, Fresh, Divergent;
    var fragments := all - {anchor};
    var fit := CheckFragments(lib, fragments, c.group);
    if !fit {
      return Unsafe;
    }
    var agreed, art := ChooseArt(AnchorArt(lib, anchor, c.group), Arts(lib, fragments));
    if !agreed {
      return Unsafe;
    }
    var stale := StaleFragmentEvidence(snapshots, fragments, now);
    if stale {
      return Unsafe;
    }
    var divergent := DivergentCompleteEditions(stored);
    if divergent {
      return Unsafe;
    }
    var matched := R.MatchReleaseUnion(norm, union, c.listing);
    if matched.None? {
      return Unsafe;
    }
    var conflict := M.SplitProfileConflict(loves, ratings, anchor, fragments);
    if conflict || ReleaseTaken(lib, anchor, c.release) {
      return Unsafe;
    }
    r := Safe(M.Plan(fragments, set id | id in all && id in lib.albums :: lib.albums[id].artist, art), union, matched.value);
  }

  /** planSplitAlbumReconciliation: without a second compatible album there is nothing to do;
      otherwise the plan is safe exactly when everything that must hold does. */
  method PlanSplit(lib: Library, norm: R.Title, anchor: int, c: Canonical, snapshots: Option<seq<Snapshot>>, now: map<int, Snapshot>,
                   stored: seq<Stored>, loves: M.Opinions, ratings: M.Opinions) returns (r: Outcome, ghost tracks: seq<R.LocalTrack>)
    requires anchor in lib.albums && lib.albums.Keys <= now.Keys
    ensures r.NoFragments? <==> |CompatibleSet(lib, anchor, c.group)| <= 1
    ensures !r.NoFragments? ==> var all := CompatibleSet(lib, anchor, c.group);
              && IsUnion(lib, {anchor} + (all - {anchor}), all, tracks)
              && (r.Safe? <==> MayMerge(lib, norm, anchor, c, Current(snapshots, all - {anchor}, now), Divergent(stored), loves, ratings, tracks))
    ensures Planned(lib, norm, anchor, c, tracks, r)
  {
    hide IsUnion, MayMerge, R.Match, Arts, ArtChosen, AnchorArt, Compatible;
    var all := CompatibleAlbums(lib, anchor, c.group);
    tracks := [];
    if |all| <= 1 {
      return NoFragments, tracks;
    }
    var union := UnionTracks(lib, {anchor} + (all - {anchor}), all);
    tracks := union;
    r := Judge(lib, norm, anchor, c, snapshots, now, stored, loves, ratings, all, union);
  }

  lemma {:induction false} OneMember(s: set<int>, a: int)
    requires a in s && |s| <= 1
    ensures s == {a}
  {
    assert |s - {a}| == |s| - 1;
    assert s - {a} == {};
  }

  /** No snapshots recorded, or all of them still current. */
  ghost predicate Current(snapshots: Option<seq<Snapshot>>, fragments: set<int>, now: map<int, Snapshot>)
    requires fragments <= now.Keys
  {
    snapshots.Some? ==>
      |snapshots.value| == |fragments| && forall i :: 0 <= i < |snapshots.value| ==> Fresh(snapshots.value[i], fragments, now)
  }

  // ---------------------------------------------------------------------
  // What a safe plan guarantees

  /** A plan is safe to carry out exactly when: each fragment is a loose album with all its tracks
      there; an artless anchor finds no two fragments with different art; the evidence is
      current and no stored editions diverge; the union matches the release; no profile has two
      minds about the albums; and no other album holds the release. */
  lemma {:induction false} SafetyExactly(lib: Library, norm: R.Title, anchor: int, c: Canonical, current: bool, divergent: bool,
                                         loves: M.Opinions, ratings: M.Opinions, tracks: seq<R.LocalTrack>)
    requires anchor in lib.albums
    ensures MayMerge(lib, norm, anchor, c, current, divergent, loves, ratings, tracks) <==>
            && (forall id :: IsFragment(lib, anchor, c.group, id) ==> Loose(lib.albums[id], c.group) && AllThere(lib, id))
            && ((lib.albums[anchor].art != None && !lib.albums[anchor].missing) ||
                forall x, y :: IsFragment(lib, anchor, c.group, x) && IsFragment(lib, anchor, c.group, y) ==>
                  lib.albums[x].art == lib.albums[y].art || lib.albums[x].art == None || lib.albums[y].art == None)
            && current && !divergent && R.Match(norm, tracks, c.listing) != None
            && SameMind(loves, lib, anchor, c.group) && SameMind(ratings, lib, anchor, c.group)
            && (c.release == "" || forall id :: id in lib.albums && id != anchor ==> lib.albums[id].release != c.release)
  {
    hide R.Match, Whole, AllThere, Unclaimed, Loose;
    forall id
      ensures id in Fragments(lib, anchor, c.group) <==> IsFragment(lib, anchor, c.group, id)
    {
    }
    forall id | id in lib.albums
      ensures Whole(lib, id) <==> AllThere(lib, id)
      ensures Unclaimed(lib.albums[id], c.group) <==> Loose(lib.albums[id], c.group)
    {
      LooseAgrees(lib, c.group, id);
    }
    ArtsAgree(lib, anchor, c.group);
    hide IsFragment, Arts, Fragments, Compatible;
  }

  predicate IsFragment(lib: Library, anchor: int, group: string, id: int)
    requires anchor in lib.albums
  {
    id in lib.albums && id != anchor && Alike(lib.albums[anchor], lib.albums[id]) && lib.albums[id].group in {"", group}
  }

  /** No profile has two opinions of different value on the anchor and its fragments. */
  ghost predicate SameMind(table: M.Opinions, lib: Library, anchor: int, group: string)
    requires anchor in lib.albums
  {
    forall a, b | a in table && b in table && table[a].profile == table[b].profile &&
                  Of(lib, anchor, group, table[a].ref) && Of(lib, anchor, group, table[b].ref) :: table[a].value == table[b].value
  }

  predicate Of(lib: Library, anchor: int, group: string, ref: int)
    requires anchor in lib.albums
  {
    ref == anchor || IsFragment(lib, anchor, group, ref)
  }

  lemma {:induction false} LooseAgrees(lib: Library, group: string, id: int)
    requires id in lib.albums
    ensures Whole(lib, id) <==> AllThere(lib, id)
    ensures Unclaimed(lib.albums[id], group) <==> Loose(lib.albums[id], group)
  {
  }

  lemma {:induction false} ArtsAgree(lib: Library, anchor: int, group: string)
    requires anchor in lib.albums
    ensures |Arts(lib, Fragments(lib, anchor, group))| <= 1 <==>
            forall x, y :: IsFragment(lib, anchor, group, x) && IsFragment(lib, anchor, group, y) ==>
              lib.albums[x].art == lib.albums[y].art || lib.albums[x].art == None || lib.albums[y].art == None
  {
    var fragments := Fragments(lib, anchor, group);
    var arts := Arts(lib, fragments);
    forall id
      ensures id in fragments <==> IsFragment(lib, anchor, group, id)
    {
    }
    hide Fragments, IsFragment;
    if |arts| <= 1 {
      forall x, y | x in fragments && y in fragments && lib.albums[x].art != None && lib.albums[y].art != None
        ensures lib.albums[x].art == lib.albums[y].art
      {
        OneMember(arts, lib.albums[x].art.value);
        assert lib.albums[y].art.value in arts;
      }
    } else {
      SomeId(arts);
      var a :| a in arts;
      SomeId(arts - {a});
      assert arts == {a} + (arts - {a});
      var b :| b in arts - {a};
      var x :| x in fragments && lib.albums[x].art == Some(a);
      var y :| y in fragments && lib.albums[y].art == Some(b);
    }
  }

  /** Planning, matching and merging together: when the plan is safe, the tracks that the merge
      puts under the survivor are exactly the tracks of the union, every one of them present;
      the match is a bijection from them onto the release's positions; no track of a fragment
      stays behind; and every profile keeps its one opinion, with its value, on the survivor. */
  lemma {:induction false} SafePlanMergesWholeUnion(lib: Library, norm: R.Title, anchor: int, c: Canonical, current: bool, divergent: bool,
                                                    loves: M.Opinions, ratings: M.Opinions, tracks: seq<R.LocalTrack>)
    requires anchor in lib.albums && M.Unique(loves) && M.Unique(ratings)
    requires var all := CompatibleSet(lib, anchor, c.group); IsUnion(lib, {anchor} + (all - {anchor}), all, tracks)
    requires MayMerge(lib, norm, anchor, c, current, divergent, loves, ratings, tracks)
    ensures var fragments := Fragments(lib, anchor, c.group); var m := R.Match(norm, tracks, c.listing).value;
      && (forall t :: t in m <==> Merging(lib, {anchor} + fragments, t))
      && (forall t :: t in lib.tracks && lib.tracks[t].album in fragments ==> t in m)
      && (forall a, b :: a in m && b in m && a != b ==> R.Place(m[a]) != R.Place(m[b]))
      && R.Targets(m) == R.Places(c.listing.tracks) && R.Contiguous(R.Targets(m))
      && M.OneEach(loves, M.Merged(loves, anchor, fragments), anchor, {anchor} + fragments)
      && M.OneEach(ratings, M.Merged(ratings, anchor, fragments), anchor, {anchor} + fragments)
  {
    var fragments := Fragments(lib, anchor, c.group);
    var m := R.Match(norm, tracks, c.listing).value;
    R.AcceptedUnionIsBijection(norm, tracks, c.listing, m);
    M.GuardedMergeConserves(loves, ratings, anchor, fragments);
    UnionIds(lib, {anchor} + fragments, CompatibleSet(lib, anchor, c.group), tracks);
    hide R.Match, M.Conflict, M.OneEach, M.Merged, IsUnion, R.Contiguous, R.Targets, R.Places, M.Unique;
    forall t | t in lib.tracks && lib.tracks[t].album in fragments
      ensures Merging(lib, {anchor} + fragments, t)
    {
      assert Whole(lib, lib.tracks[t].album);
    }
  }

  lemma {:induction false} UnionIds(lib: Library, ids: set<int>, compatible: set<int>, tracks: seq<R.LocalTrack>)
    requires IsUnion(lib, ids, compatible, tracks)
    ensures forall t :: t in R.Ids(tracks) <==> Merging(lib, ids, t)
  {
    forall t
      ensures t in R.Ids(tracks) <==> Merging(lib, ids, t)
    {
      if t in R.Ids(tracks) {
        var x :| x in tracks && x.id == t;
        var i :| 0 <= i < |tracks| && tracks[i] == x;
      }
      if Merging(lib, ids, t) {
        var i :| 0 <= i < |tracks| && tracks[i].id == t;
        assert tracks[i] in tracks;
      }
    }
  }
}
