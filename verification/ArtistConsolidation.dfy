/** Merging untagged duplicates into tagged artists (internal/store/artist_consolidation.go,
    internal/store/artist_identity.go): groups are planned and checked for title collisions up
    front, then merged one after the other in the same transaction. The evidence map from
    names to MusicBrainz ids is arbitrary here; ArtistEvidence says how it is built. */
module ArtistConsolidation {
  import opened Common

  /** `key` is the name or title as artistEvidenceKey folds it. */
  datatype Artist = Artist(mbid: Option<int>, name: string, key: string, fetched: bool, art: Option<int>, missing: bool, changeSeq: int)

  datatype Album = Album(artist: int, titleKey: string, tagged: bool, missing: bool, changeSeq: int)

  datatype Track = Track(album: int, artist: int, artistName: string, missing: bool, changeSeq: int)

  /** Credit rows are keyed by owner and position. */
  datatype Library = Library(artists: map<int, Artist>, albums: map<int, Album>, tracks: map<int, Track>,
                             albumCredits: map<(int, int), int>, trackCredits: map<(int, int), int>)

  datatype Source = Source(id: int, art: Option<int>)

  datatype Group = Group(canonical: int, mbid: int, name: string, art: Option<int>, sources: seq<Source>, collides: bool)

  type Evidence = map<string, set<int>>

  // ---------------------------------------------------------------------
  // Planning

  predicate Untagged(lib: Library, a: int) {
    a in lib.artists && lib.artists[a].mbid.None?
  }

  /** The name points to this one MusicBrainz id and no other. */
  predicate Matches(ev: Evidence, key: string, mbid: int) {
    key in ev && ev[key] == {mbid}
  }

  predicate OwnsPresentAlbum(lib: Library, a: int) {
    exists k :: k in lib.albums && lib.albums[k].artist == a && !lib.albums[k].missing
  }

  predicate Owner(lib: Library, ev: Evidence, mbid: int, a: int) {
    Untagged(lib, a) && OwnsPresentAlbum(lib, a) && Matches(ev, lib.artists[a].key, mbid)
  }

  predicate AlbumOf(lib: Library, k: int, owner: int) {
    k in lib.albums && lib.albums[k].artist == owner
  }

  predicate TrackOf(lib: Library, t: int, owner: int) {
    t in lib.tracks && AlbumOf(lib, lib.tracks[t].album, owner)
  }

  /** The artist itself, or one credited on or performing on its albums. */
  predicate Linked(lib: Library, owner: int, a: int) {
    || a == owner
    || (exists c :: c in lib.albumCredits && lib.albumCredits[c] == a && AlbumOf(lib, c.0, owner))
    || (exists t :: t in lib.tracks && lib.tracks[t].artist == a && AlbumOf(lib, lib.tracks[t].album, owner))
    || (exists c :: c in lib.trackCredits && lib.trackCredits[c] == a && TrackOf(lib, c.0, owner))
  }

  predicate MergeSource(lib: Library, ev: Evidence, mbid: int, a: int) {
    && Untagged(lib, a) && Matches(ev, lib.artists[a].key, mbid)
    && exists o :: o in lib.artists && Owner(lib, ev, mbid, o) && Linked(lib, o, a)
  }

  function Ids(sources: seq<Source>): set<int> {
    set i | 0 <= i < |sources| :: sources[i].id
  }

  /** Two different untagged albums of these artists whose folded titles agree. */
  ghost predicate Collides(lib: Library, artists: set<int>) {
    exists j, k :: j in lib.albums && k in lib.albums && j != k && SameTitle(lib.albums[j], lib.albums[k], artists)
  }

  predicate SameTitle(x: Album, y: Album, artists: set<int>) {
    !x.tagged && !y.tagged && x.artist in artists && y.artist in artists && x.titleKey == y.titleKey
  }

  ghost predicate Planned(lib: Library, ev: Evidence, g: Group) {
    && g.canonical in lib.artists && lib.artists[g.canonical].mbid == Some(g.mbid)
    && lib.artists[g.canonical].name == g.name && lib.artists[g.canonical].art == g.art
    && (forall a :: a in Ids(g.sources) <==> MergeSource(lib, ev, g.mbid, a))
    && (forall i, j :: 0 <= i < j < |g.sources| ==> g.sources[i].id != g.sources[j].id)
    && (forall i :: 0 <= i < |g.sources| ==> Untagged(lib, g.sources[i].id) && g.sources[i].art == lib.artists[g.sources[i].id].art)
    && (g.collides <==> Collides(lib, {g.canonical} + Ids(g.sources)))
  }

  ghost predicate Grouped(lib: Library, ev: Evidence, groups: seq<Group>) {
    && (forall i :: 0 <= i < |groups| ==> Planned(lib, ev, groups[i]))
    && (forall i, j :: 0 <= i < j < |groups| ==> groups[i].canonical != groups[j].canonical)
  }

  /** The plan: one group for each tagged artist whose aliases are known. */
  ghost predicate Plan(lib: Library, ev: Evidence, groups: seq<Group>) {
    && Grouped(lib, ev, groups)
    && (forall a :: a in lib.artists && lib.artists[a].mbid.Some? && lib.artists[a].fetched <==>
          exists i :: 0 <= i < |groups| && groups[i].canonical == a)
  }

  /** MusicBrainz ids are unique in the artists table. */
  predicate UniqueMbids(lib: Library) {
    forall a, b :: a in lib.artists && b in lib.artists && a != b && lib.artists[a].mbid.Some? ==>
      lib.artists[a].mbid != lib.artists[b].mbid
  }

  predicate Applies(g: Group) {
    !g.collides && g.sources != []
  }

  // ---------------------------------------------------------------------
  // Merging

  function Moved(a: int, source: int, canonical: int): int {
    if a == source then canonical else a
  }

  predicate CreditedOn(credits: map<(int, int), int>, owner: int, a: int) {
    exists c :: c in credits && c.0 == owner && credits[c] == a
  }

  function MergedAlbum(lib: Library, k: int, g: Group, source: int, stamp: int): Album
    requires k in lib.albums
  {
    var al := lib.albums[k];
    var touched := al.artist == source || (!al.missing && CreditedOn(lib.albumCredits, k, source));
    al.(artist := Moved(al.artist, source, g.canonical), changeSeq := if touched then stamp else al.changeSeq)
  }

  function MergedTrack(lib: Library, t: int, g: Group, source: int, stamp: int): Track
    requires t in lib.tracks
  {
    var tr := lib.tracks[t];
    var touched := tr.artist == source || (!tr.missing && CreditedOn(lib.trackCredits, t, source));
    tr.(artist := Moved(tr.artist, source, g.canonical), artistName := if tr.artist == source then g.name else tr.artistName,
        changeSeq := if touched then stamp else tr.changeSeq)
  }

  function MovedCredits(credits: map<(int, int), int>, source: int, canonical: int): map<(int, int), int> {
    map c | c in credits :: Moved(credits[c], source, canonical)
  }

  /** One source merged into its group's canonical artist. */
  function MergedOne(lib: Library, g: Group, s: Source, stamp: int): Library
    requires g.canonical in lib.artists && s.id in lib.artists
  {
    var artists := lib.artists[g.canonical := lib.artists[g.canonical].(
                                 art := if lib.artists[g.canonical].art.None? then s.art else lib.artists[g.canonical].art)];
    Library(artists[s.id := artists[s.id].(missing := true, changeSeq := stamp)],
            map k | k in lib.albums :: MergedAlbum(lib, k, g, s.id, stamp),
            map t | t in lib.tracks :: MergedTrack(lib, t, g, s.id, stamp),
            MovedCredits(lib.albumCredits, s.id, g.canonical),
            MovedCredits(lib.trackCredits, s.id, g.canonical))
  }

  predicate HasArtists(lib: Library, g: Group) {
    g.canonical in lib.artists.Keys && forall i :: 0 <= i < |g.sources| ==> g.sources[i].id in lib.artists.Keys
  }

  function MergedSources(lib: Library, g: Group, n: nat, stamp: int): (r: Library)
    requires HasArtists(lib, g) && n <= |g.sources|
    ensures r.artists.Keys == lib.artists.Keys
  {
    if n == 0 then lib else MergedOne(MergedSources(lib, g, n - 1, stamp), g, g.sources[n - 1], stamp)
  }

  /** The canonical artist is stamped, and present exactly when it owns a present album. */
  function Restamped(lib: Library, canonical: int, stamp: int): Library
    requires canonical in lib.artists
  {
    lib.(artists := lib.artists[canonical :=
           lib.artists[canonical].(missing := !OwnsPresentAlbum(lib, canonical), changeSeq := stamp)])
  }

  function MergedGroup(lib: Library, g: Group, stamp: int): (r: Library)
    requires HasArtists(lib, g)
    ensures r.artists.Keys == lib.artists.Keys
  {
    if Applies(g) then Restamped(MergedSources(lib, g, |g.sources|, stamp), g.canonical, stamp) else lib
  }

  function MergedAll(lib: Library, groups: seq<Group>, stamp: int): (r: Library)
    requires forall i :: 0 <= i < |groups| ==> HasArtists(lib, groups[i])
    ensures r.artists.Keys == lib.artists.Keys
  {
    if groups == [] then lib
    else
      var last := |groups| - 1;
      var before := MergedAll(lib, groups[..last], stamp);
      assert HasArtists(lib, groups[last]);
      MergedGroup(before, groups[last], stamp)
  }

  // ---------------------------------------------------------------------
  // Disjointness

  lemma {:induction false} GroupsApart(lib: Library, ev: Evidence, groups: seq<Group>, i: nat, j: nat)
    requires UniqueMbids(lib) && Grouped(lib, ev, groups) && i < |groups| && j < |groups| && i != j
    ensures Ids(groups[i].sources) !! Ids(groups[j].sources)
    ensures groups[i].canonical !in Ids(groups[j].sources) && groups[i].canonical !in Ids(groups[i].sources)
    ensures groups[i].canonical != groups[j].canonical && groups[i].mbid != groups[j].mbid
  {
    assert Planned(lib, ev, groups[i]) && Planned(lib, ev, groups[j]);
    hide Linked, OwnsPresentAlbum, Collides;
    assert groups[i].mbid != groups[j].mbid;
    forall a | a in Ids(groups[i].sources)
      ensures a !in Ids(groups[j].sources)
    {
      assert Matches(ev, lib.artists[a].key, groups[i].mbid);
      assert groups[j].mbid !in ev[lib.artists[a].key];
    }
  }

  /** With unique MusicBrainz ids, no artist is a source of two groups, and no source is the
      canonical artist of any group. */
  lemma {:induction false} GroupsAreDisjoint(lib: Library, ev: Evidence, groups: seq<Group>, i: nat, j: nat)
    requires Grouped(lib, ev, groups) && i < |groups| && j < |groups| && i != j
    requires forall a, b :: a in lib.artists && b in lib.artists && a != b && lib.artists[a].mbid != None ==>
               lib.artists[a].mbid != lib.artists[b].mbid
    ensures Ids(groups[i].sources) !! Ids(groups[j].sources)
    ensures groups[i].canonical !in Ids(groups[j].sources) && groups[i].canonical !in Ids(groups[i].sources)
    ensures groups[i].canonical != groups[j].canonical && groups[i].mbid != groups[j].mbid
  {
    hide Grouped;
    assert UniqueMbids(lib);
    GroupsApart(lib, ev, groups, i, j);
  }

  // ---------------------------------------------------------------------
  // What merging does to every row

  /** Where a reference to artist a ends up. */
  function Target(groups: seq<Group>, a: int): int {
    if groups == [] then a
    else
      var g := groups[|groups| - 1];
      if Applies(g) && a in Ids(g.sources) then g.canonical else Target(groups[..|groups| - 1], a)
  }

  /** Every row is kept once, its references redirected by `to`; only its stamp may also move. */
  ghost predicate Redirected(was: Library, now: Library, to: int -> int) {
    && now.albums.Keys == was.albums.Keys && now.tracks.Keys == was.tracks.Keys
    && now.albumCredits.Keys == was.albumCredits.Keys && now.trackCredits.Keys == was.trackCredits.Keys
    && (forall k :: k in was.albums ==>
          now.albums[k] == was.albums[k].(artist := to(was.albums[k].artist), changeSeq := now.albums[k].changeSeq))
    && (forall t :: t in was.tracks ==>
          now.tracks[t] == was.tracks[t].(artist := to(was.tracks[t].artist), artistName := now.tracks[t].artistName,
                                            changeSeq := now.tracks[t].changeSeq))
    && (forall c :: c in was.albumCredits ==> now.albumCredits[c] == to(was.albumCredits[c]))
    && (forall c :: c in was.trackCredits ==> now.trackCredits[c] == to(was.trackCredits[c]))
  }

  lemma {:induction false} MergedOneRedirects(lib: Library, g: Group, s: Source, stamp: int)
    requires g.canonical in lib.artists && s.id in lib.artists
    ensures Redirected(lib, MergedOne(lib, g, s, stamp), a => Moved(a, s.id, g.canonical))
  {
  }

  /** Redirections compose. */
  lemma {:induction false} RedirectedTrans(x: Library, y: Library, z: Library, f: int -> int, h: int -> int, both: int -> int)
    requires Redirected(x, y, f) && Redirected(y, z, h)
    requires forall a :: h(f(a)) == both(a)
    ensures Redirected(x, z, both)
  {
    forall k | k in x.albums
      ensures z.albums[k].artist == both(x.albums[k].artist)
    {
      assert y.albums[k].artist == f(x.albums[k].artist);
    }
    forall t | t in x.tracks
      ensures z.tracks[t].artist == both(x.tracks[t].artist)
    {
      assert y.tracks[t].artist == f(x.tracks[t].artist);
    }
    forall c | c in x.albumCredits
      ensures z.albumCredits[c] == both(x.albumCredits[c])
    {
      var a := x.albumCredits[c];
      assert y.albumCredits[c] == f(a) && z.albumCredits[c] == h(f(a));
    }
    forall c | c in x.trackCredits
      ensures z.trackCredits[c] == both(x.trackCredits[c])
    {
      var a := x.trackCredits[c];
      assert y.trackCredits[c] == f(a) && z.trackCredits[c] == h(f(a));
    }
  }

  lemma {:induction false} IdsGrow(sources: seq<Source>, n: nat, a: int)
    requires 0 < n <= |sources|
    ensures a in Ids(sources[..n]) <==> a in Ids(sources[..n - 1]) || a == sources[n - 1].id
  {
    var before := sources[..n - 1];
    if a in Ids(before) {
      var i :| 0 <= i < |before| && before[i].id == a;
      assert sources[..n][i].id == a;
    }
    if a == sources[n - 1].id {
      assert sources[..n][n - 1].id == a;
    }
    if a in Ids(sources[..n]) && a != sources[n - 1].id {
      var i :| 0 <= i < n && sources[..n][i].id == a;
      assert before[i].id == a;
    }
  }

  lemma {:induction false} MergedSourcesRedirects(lib: Library, g: Group, n: nat, stamp: int)
    requires HasArtists(lib, g) && n <= |g.sources| && g.canonical !in Ids(g.sources)
    ensures Redirected(lib, MergedSources(lib, g, n, stamp), a => if a in Ids(g.sources[..n]) then g.canonical else a)
  {
    hide Redirected, MergedOne;
    if n == 0 {
      SameRedirects(lib, a => if a in Ids(g.sources[..n]) then g.canonical else a);
    } else {
      var mid := MergedSources(lib, g, n - 1, stamp);
      MergedSourcesRedirects(lib, g, n - 1, stamp);
      MergedOneRedirects(mid, g, g.sources[n - 1], stamp);
      forall a
        ensures a in Ids(g.sources[..n]) <==> a in Ids(g.sources[..n - 1]) || a == g.sources[n - 1].id
      {
        IdsGrow(g.sources, n, a);
      }
      assert g.canonical != g.sources[n - 1].id;
      RedirectedTrans(lib, mid, MergedSources(lib, g, n, stamp),
                      a => if a in Ids(g.sources[..n - 1]) then g.canonical else a,
                      a => Moved(a, g.sources[n - 1].id, g.canonical),
                      a => if a in Ids(g.sources[..n]) then g.canonical else a);
    }
  }

  lemma {:induction false} SameRedirects(lib: Library, f: int -> int)
    requires forall a :: f(a) == a
    ensures Redirected(lib, lib, f)
  {
  }

  lemma {:induction false} PlanDisjointPrefix(lib: Library, ev: Evidence, groups: seq<Group>)
    requires groups != [] && UniqueMbids(lib) && Grouped(lib, ev, groups)
    ensures forall i :: 0 <= i < |groups| ==> HasArtists(lib, groups[i])
    ensures var g := groups[|groups| - 1]; var rest := groups[..|groups| - 1];
            && g.canonical !in Ids(g.sources)
            && (forall i :: 0 <= i < |rest| ==>
                  rest[i].canonical !in Ids(g.sources) && Ids(rest[i].sources) !! Ids(g.sources))
  {
    var last := |groups| - 1;
    forall i | 0 <= i < |groups|
      ensures HasArtists(lib, groups[i])
    {
      assert Planned(lib, ev, groups[i]);
    }
    forall i | 0 <= i < last
      ensures groups[i].canonical !in Ids(groups[last].sources) && Ids(groups[i].sources) !! Ids(groups[last].sources)
    {
      GroupsApart(lib, ev, groups, i, last);
    }
    assert Planned(lib, ev, groups[last]);
  }

  /** A reference leads into a group's canonical artist only from there or from its sources. */
  lemma {:induction false} TargetCases(groups: seq<Group>, a: int)
    ensures Target(groups, a) == a ||
            exists i :: 0 <= i < |groups| && Applies(groups[i]) && a in Ids(groups[i].sources) && Target(groups, a) == groups[i].canonical
  {
    if groups != [] {
      var rest := groups[..|groups| - 1];
      TargetCases(rest, a);
      if i :| 0 <= i < |rest| && Applies(rest[i]) && a in Ids(rest[i].sources) && Target(rest, a) == rest[i].canonical {
        assert groups[i] == rest[i];
      }
    }
  }

  lemma {:induction false} GroupedPrefix(lib: Library, ev: Evidence, groups: seq<Group>)
    requires groups != [] && Grouped(lib, ev, groups)
    ensures Grouped(lib, ev, groups[..|groups| - 1])
  {
  }

  lemma {:induction false} TargetOfSource(lib: Library, ev: Evidence, groups: seq<Group>, i: nat, a: int)
    requires UniqueMbids(lib) && Grouped(lib, ev, groups) && i < |groups| && Applies(groups[i]) && a in Ids(groups[i].sources)
    ensures Target(groups, a) == groups[i].canonical
  {
    var last := |groups| - 1;
    if i < last {
      GroupsApart(lib, ev, groups, i, last);
      GroupedPrefix(lib, ev, groups);
      TargetOfSource(lib, ev, groups[..last], i, a);
    }
  }

  /** A canonical artist, and any artist that is no source of an applied group, stays. */
  lemma {:induction false} TargetOfOther(groups: seq<Group>, a: int)
    requires forall i :: 0 <= i < |groups| && Applies(groups[i]) ==> a !in Ids(groups[i].sources)
    ensures Target(groups, a) == a
  {
    if groups != [] {
      TargetOfOther(groups[..|groups| - 1], a);
    }
  }

  lemma {:induction false} TargetStep(lib: Library, ev: Evidence, groups: seq<Group>, a: int)
    requires groups != [] && UniqueMbids(lib) && Grouped(lib, ev, groups)
    ensures var g := groups[|groups| - 1]; var before := Target(groups[..|groups| - 1], a);
            Target(groups, a) == if Applies(g) && before in Ids(g.sources) then g.canonical else before
  {
    var rest := groups[..|groups| - 1];
    PlanDisjointPrefix(lib, ev, groups);
    TargetCases(rest, a);
    hide Grouped, Planned;
    if a in Ids(groups[|groups| - 1].sources) {
      TargetOfOther(rest, a);
    }
  }

  /** The whole run: every album, track and credit row is kept once, with every reference to
      a merged source redirected to its group's canonical artist and all others unchanged. */
  lemma {:induction false} ConsolidationRedirects(lib: Library, ev: Evidence, groups: seq<Group>, stamp: int)
    requires UniqueMbids(lib) && Grouped(lib, ev, groups)
    requires forall i :: 0 <= i < |groups| ==> HasArtists(lib, groups[i])
    ensures Redirected(lib, MergedAll(lib, groups, stamp), a => Target(groups, a))
  {
    hide Redirected, Grouped, Planned, MergedSources, Applies, Restamped;
    if groups == [] {
      SameRedirects(lib, a => Target(groups, a));
    } else {
      var rest, g := groups[..|groups| - 1], groups[|groups| - 1];
      var mid := MergedAll(lib, rest, stamp);
      GroupedPrefix(lib, ev, groups);
      ConsolidationRedirects(lib, ev, rest, stamp);
      PlanDisjointPrefix(lib, ev, groups);
      GroupRedirects(mid, g, stamp);
      forall a
        ensures (if Applies(g) && Target(rest, a) in Ids(g.sources) then g.canonical else Target(rest, a)) == Target(groups, a)
      {
        TargetStep(lib, ev, groups, a);
      }
      RedirectedTrans(lib, mid, MergedAll(lib, groups, stamp), a => Target(rest, a),
                      a => if Applies(g) && a in Ids(g.sources) then g.canonical else a, a => Target(groups, a));
    }
  }

  lemma {:induction false} GroupRedirects(lib: Library, g: Group, stamp: int)
    requires HasArtists(lib, g) && g.canonical !in Ids(g.sources)
    ensures Redirected(lib, MergedGroup(lib, g, stamp), a => if Applies(g) && a in Ids(g.sources) then g.canonical else a)
  {
    if Applies(g) {
      assert g.sources[..|g.sources|] == g.sources;
      MergedSourcesRedirects(lib, g, |g.sources|, stamp);
    } else {
      SameRedirects(lib, a => if Applies(g) && a in Ids(g.sources) then g.canonical else a);
    }
  }

  // ---------------------------------------------------------------------
  // What merging does to the artists

  predicate InGroup(g: Group, a: int) {
    Applies(g) && (a == g.canonical || a in Ids(g.sources))
  }

  /** Merging keeps every artist row and its identity, and leaves artists outside alone. */
  ghost predicate ArtistsKept(x: Library, y: Library, a: int, touched: bool) {
    && (a in x.artists <==> a in y.artists)
    && (a in x.artists ==>
          && y.artists[a] == x.artists[a].(art := y.artists[a].art, missing := y.artists[a].missing, changeSeq := y.artists[a].changeSeq)
          && (!touched ==> y.artists[a] == x.artists[a]))
  }

  lemma {:induction false} SourcesKeepArtists(lib: Library, g: Group, n: nat, stamp: int, a: int)
    requires HasArtists(lib, g) && n <= |g.sources|
    ensures ArtistsKept(lib, MergedSources(lib, g, n, stamp), a, a == g.canonical || a in Ids(g.sources[..n]))
  {
    if n > 0 {
      SourcesKeepArtists(lib, g, n - 1, stamp, a);
      IdsGrow(g.sources, n, a);
    }
  }

  lemma {:induction false} MergingKeepsArtists(lib: Library, groups: seq<Group>, stamp: int, a: int)
    requires forall i :: 0 <= i < |groups| ==> HasArtists(lib, groups[i])
    ensures ArtistsKept(lib, MergedAll(lib, groups, stamp), a, exists i :: 0 <= i < |groups| && InGroup(groups[i], a))
  {
    if groups != [] {
      var rest, g := groups[..|groups| - 1], groups[|groups| - 1];
      MergingKeepsArtists(lib, rest, stamp, a);
      assert (exists i :: 0 <= i < |rest| && InGroup(rest[i], a)) ==> exists i :: 0 <= i < |groups| && InGroup(groups[i], a) by {
        if i :| 0 <= i < |rest| && InGroup(rest[i], a) {
          assert InGroup(groups[i], a);
        }
      }
      var mid := MergedAll(lib, rest, stamp);
      hide MergedSources, OwnsPresentAlbum;
      assert HasArtists(lib, g);
      if Applies(g) {
        assert g.sources[..|g.sources|] == g.sources;
        SourcesKeepArtists(mid, g, |g.sources|, stamp, a);
        assert InGroup(g, a) ==> InGroup(groups[|groups| - 1], a);
      }
    }
  }

  // ---------------------------------------------------------------------
  // The plan made up front stays valid

  /** An artist a group's plan depends on: its canonical artist, or an untagged one whose name
      points to the group's MusicBrainz id. */
  predicate Mine(lib: Library, ev: Evidence, g: Group, a: int) {
    a == g.canonical || (Untagged(lib, a) && Matches(ev, lib.artists[a].key, g.mbid))
  }

  lemma {:induction false} MineIsUntouched(lib: Library, ev: Evidence, groups: seq<Group>, a: int)
    requires groups != [] && UniqueMbids(lib) && Grouped(lib, ev, groups) && Mine(lib, ev, groups[|groups| - 1], a)
    ensures forall i :: 0 <= i < |groups| - 1 ==> !InGroup(groups[i], a)
  {
    var last := |groups| - 1;
    forall i | 0 <= i < last
      ensures a != groups[i].canonical && a !in Ids(groups[i].sources)
    {
      GroupsApart(lib, ev, groups, i, last);
      assert Planned(lib, ev, groups[i]) && Planned(lib, ev, groups[last]);
      hide Linked, OwnsPresentAlbum, Collides;
      assert a in Ids(groups[i].sources) ==> MergeSource(lib, ev, groups[i].mbid, a);
      assert groups[i].mbid in {groups[i].mbid} && groups[i].mbid !in {groups[last].mbid};
    }
  }

  /** Earlier groups neither take references from this group's artists nor add any. */
  lemma {:induction false} MineKeepsReferences(lib: Library, ev: Evidence, groups: seq<Group>, a: int, x: int)
    requires groups != [] && UniqueMbids(lib) && Grouped(lib, ev, groups) && Mine(lib, ev, groups[|groups| - 1], a)
    ensures Target(groups[..|groups| - 1], x) == a <==> x == a
  {
    var rest := groups[..|groups| - 1];
    MineIsUntouched(lib, ev, groups, a);
    hide Grouped, Planned, Mine;
    assert forall i :: 0 <= i < |rest| ==> !InGroup(rest[i], a);
    TargetOfOther(rest, a);
    TargetCases(rest, x);
    if i :| 0 <= i < |rest| && Applies(rest[i]) && x in Ids(rest[i].sources) && Target(rest, x) == rest[i].canonical {
      assert !InGroup(rest[i], a);
    }
  }

  /** A redirection that keeps the references to some artists keeps what the plan reads of them. */
  ghost predicate KeepsReferences(f: int -> int, a: int) {
    forall x :: f(x) == a <==> x == a
  }

  lemma {:induction false} OwnsKept(x: Library, y: Library, f: int -> int, a: int)
    requires Redirected(x, y, f) && KeepsReferences(f, a)
    ensures OwnsPresentAlbum(y, a) <==> OwnsPresentAlbum(x, a)
  {
    if k :| k in x.albums && x.albums[k].artist == a && !x.albums[k].missing {
      assert y.albums[k].artist == f(a);
    }
    if k :| k in y.albums && y.albums[k].artist == a && !y.albums[k].missing {
      assert y.albums[k].artist == f(x.albums[k].artist);
    }
  }

  lemma {:induction false} AlbumOfKept(x: Library, y: Library, f: int -> int, k: int, o: int)
    requires Redirected(x, y, f) && KeepsReferences(f, o)
    ensures AlbumOf(y, k, o) <==> AlbumOf(x, k, o)
  {
    if k in x.albums {
      assert y.albums[k].artist == f(x.albums[k].artist);
    }
  }

  lemma {:induction false} LinkedKept(x: Library, y: Library, f: int -> int, o: int, a: int)
    requires Redirected(x, y, f) && KeepsReferences(f, o) && KeepsReferences(f, a)
    ensures Linked(y, o, a) <==> Linked(x, o, a)
  {
    forall k
      ensures AlbumOf(y, k, o) <==> AlbumOf(x, k, o)
    {
      AlbumOfKept(x, y, f, k, o);
    }
    forall c | c in x.albumCredits
      ensures y.albumCredits[c] == a <==> x.albumCredits[c] == a
    {
      assert y.albumCredits[c] == f(x.albumCredits[c]);
    }
    forall t | t in x.tracks
      ensures y.tracks[t].artist == a <==> x.tracks[t].artist == a
      ensures y.tracks[t].album == x.tracks[t].album
    {
      assert y.tracks[t].artist == f(x.tracks[t].artist);
    }
    forall c | c in x.trackCredits
      ensures y.trackCredits[c] == a <==> x.trackCredits[c] == a
    {
      assert y.trackCredits[c] == f(x.trackCredits[c]);
    }
    hide Redirected, AlbumOf;
    assert x.albumCredits.Keys == y.albumCredits.Keys && x.tracks.Keys == y.tracks.Keys && x.trackCredits.Keys == y.trackCredits.Keys;
  }

  lemma {:induction false} MergeSourceKept(x: Library, y: Library, ev: Evidence, mbid: int, f: int -> int, a: int)
    requires Redirected(x, y, f)
    requires forall o :: ArtistsKept(x, y, o, true)
    requires forall o :: Untagged(x, o) && Matches(ev, x.artists[o].key, mbid) ==> KeepsReferences(f, o)
    ensures MergeSource(y, ev, mbid, a) <==> MergeSource(x, ev, mbid, a)
  {
    hide Redirected, KeepsReferences, Linked, OwnsPresentAlbum;
    forall o | o in x.artists && Untagged(x, o) && Matches(ev, x.artists[o].key, mbid)
      ensures OwnsPresentAlbum(y, o) <==> OwnsPresentAlbum(x, o)
      ensures Untagged(x, a) && Matches(ev, x.artists[a].key, mbid) ==> (Linked(y, o, a) <==> Linked(x, o, a))
    {
      OwnsKept(x, y, f, o);
      if Untagged(x, a) && Matches(ev, x.artists[a].key, mbid) {
        LinkedKept(x, y, f, o, a);
      }
    }
    assert ArtistsKept(x, y, a, true);
    if MergeSource(x, ev, mbid, a) {
      var o :| o in x.artists && Owner(x, ev, mbid, o) && Linked(x, o, a);
      assert ArtistsKept(x, y, o, true);
      assert Owner(y, ev, mbid, o) && Linked(y, o, a);
    }
    if MergeSource(y, ev, mbid, a) {
      var o :| o in y.artists && Owner(y, ev, mbid, o) && Linked(y, o, a);
      assert ArtistsKept(x, y, o, true);
      assert Owner(x, ev, mbid, o) && Linked(x, o, a);
    }
  }

  lemma {:induction false} CollidesKept(x: Library, y: Library, f: int -> int, artists: set<int>)
    requires Redirected(x, y, f) && forall a :: a in artists ==> KeepsReferences(f, a)
    ensures Collides(y, artists) <==> Collides(x, artists)
  {
    forall k | k in x.albums
      ensures y.albums[k].artist in artists <==> x.albums[k].artist in artists
    {
      var b := x.albums[k].artist;
      assert y.albums[k].artist == f(b);
      if f(b) in artists {
        assert KeepsReferences(f, f(b));
      }
    }
    forall j, k | j in x.albums && k in x.albums
      ensures SameTitle(y.albums[j], y.albums[k], artists) <==> SameTitle(x.albums[j], x.albums[k], artists)
    {
    }
  }

  lemma {:induction false} SourcesAreMine(lib: Library, ev: Evidence, g: Group, a: int)
    requires Planned(lib, ev, g) && a in {g.canonical} + Ids(g.sources)
    ensures Mine(lib, ev, g, a)
  {
    hide Linked, OwnsPresentAlbum, Collides;
  }

  /** Up-front planning is sound: when the run reaches a group, after all the merges before it,
      planning that group again would give the same canonical artist, the same sources and
      the same answer to the collision check. */
  lemma {:induction false} PlanStaysValid(lib: Library, ev: Evidence, groups: seq<Group>, i: nat, stamp: int)
    requires UniqueMbids(lib) && Grouped(lib, ev, groups) && i < |groups|
    requires forall j :: 0 <= j < |groups| ==> HasArtists(lib, groups[j])
    ensures Planned(MergedAll(lib, groups[..i], stamp), ev, groups[i])
  {
    var upTo := groups[..i + 1];
    assert upTo[..|upTo| - 1] == groups[..i] && upTo[|upTo| - 1] == groups[i];
    assert Grouped(lib, ev, upTo) && Grouped(lib, ev, groups[..i]) by { hide Planned; }
    assert Planned(lib, ev, groups[i]);
    hide Planned, Grouped, HasArtists, UniqueMbids, MergedAll;
    LastPlanStaysValid(lib, ev, upTo, stamp);
  }

  lemma {:induction false} LastPlanStaysValid(lib: Library, ev: Evidence, groups: seq<Group>, stamp: int)
    requires groups != [] && UniqueMbids(lib) && Grouped(lib, ev, groups) && Grouped(lib, ev, groups[..|groups| - 1])
    requires Planned(lib, ev, groups[|groups| - 1]) && forall j :: 0 <= j < |groups| ==> HasArtists(lib, groups[j])
    ensures Planned(MergedAll(lib, groups[..|groups| - 1], stamp), ev, groups[|groups| - 1])
  {
    hide Redirected, Linked, OwnsPresentAlbum, Target, MergedAll, Matches, Planned, Grouped, HasArtists, UniqueMbids, Mine,
         ArtistsKept, InGroup;
    var rest, g := groups[..|groups| - 1], groups[|groups| - 1];
    var mid := MergedAll(lib, rest, stamp);
    var f := a => Target(rest, a);
    ConsolidationRedirects(lib, ev, rest, stamp);
    forall a
      ensures ArtistsKept(lib, mid, a, true)
    {
      MergingTouches(lib, rest, stamp, a);
    }
    forall a | Mine(lib, ev, g, a)
      ensures KeepsReferences(f, a)
      ensures ArtistsKept(lib, mid, a, false)
    {
      MineKept(lib, ev, groups, stamp, a);
    }
    PlannedKept(lib, mid, ev, g, f);
  }

  lemma {:induction false} MergingTouches(lib: Library, groups: seq<Group>, stamp: int, a: int)
    requires forall i :: 0 <= i < |groups| ==> HasArtists(lib, groups[i])
    ensures ArtistsKept(lib, MergedAll(lib, groups, stamp), a, true)
  {
    hide MergedAll, InGroup;
    MergingKeepsArtists(lib, groups, stamp, a);
  }

  lemma {:induction false} MineKept(lib: Library, ev: Evidence, groups: seq<Group>, stamp: int, a: int)
    requires groups != [] && UniqueMbids(lib) && Grouped(lib, ev, groups) && Mine(lib, ev, groups[|groups| - 1], a)
    requires forall j :: 0 <= j < |groups| ==> HasArtists(lib, groups[j])
    ensures var rest := groups[..|groups| - 1];
            KeepsReferences(x => Target(rest, x), a) && ArtistsKept(lib, MergedAll(lib, rest, stamp), a, false)
  {
    var rest := groups[..|groups| - 1];
    forall x
      ensures Target(rest, x) == a <==> x == a
    {
      MineKeepsReferences(lib, ev, groups, a, x);
    }
    MineIsUntouched(lib, ev, groups, a);
    hide Mine, Grouped, Target, InGroup;
    assert forall i :: 0 <= i < |rest| ==> !InGroup(rest[i], a);
    MergingKeepsArtists(lib, rest, stamp, a);
  }

  lemma {:induction false} PlannedKept(lib: Library, mid: Library, ev: Evidence, g: Group, f: int -> int)
    requires Planned(lib, ev, g) && Redirected(lib, mid, f)
    requires forall a :: ArtistsKept(lib, mid, a, true)
    requires forall a :: Mine(lib, ev, g, a) ==> KeepsReferences(f, a) && ArtistsKept(lib, mid, a, false)
    ensures Planned(mid, ev, g)
  {
    hide Redirected, Linked, OwnsPresentAlbum, KeepsReferences, Collides, MergeSource;
    forall a
      ensures MergeSource(mid, ev, g.mbid, a) <==> MergeSource(lib, ev, g.mbid, a)
    {
      MergeSourceKept(lib, mid, ev, g.mbid, f, a);
    }
    forall a | a in {g.canonical} + Ids(g.sources)
      ensures Mine(lib, ev, g, a)
    {
      SourcesAreMine(lib, ev, g, a);
    }
    CollidesKept(lib, mid, f, {g.canonical} + Ids(g.sources));
    forall i | 0 <= i < |g.sources|
      ensures Untagged(mid, g.sources[i].id) && g.sources[i].art == mid.artists[g.sources[i].id].art
    {
      assert g.sources[i].id in Ids(g.sources);
    }
    assert Mine(lib, ev, g, g.canonical);
  }

  // ---------------------------------------------------------------------
  // After the run

  /** Artist a was merged away. */
  predicate Retired(groups: seq<Group>, a: int) {
    exists i :: 0 <= i < |groups| && Applies(groups[i]) && a in Ids(groups[i].sources)
  }

  lemma {:induction false} TargetNotRetired(lib: Library, ev: Evidence, groups: seq<Group>, x: int)
    requires UniqueMbids(lib) && Grouped(lib, ev, groups)
    ensures !Retired(groups, Target(groups, x))
  {
    var b := Target(groups, x);
    TargetCases(groups, x);
    hide Planned, Target;
    if i :| 0 <= i < |groups| && Applies(groups[i]) && b in Ids(groups[i].sources) {
      TargetOfSource(lib, ev, groups, i, b);
      if j :| 0 <= j < |groups| && Applies(groups[j]) && x in Ids(groups[j].sources) && b == groups[j].canonical {
        NoCanonicalIsSource(lib, ev, groups, j, i);
      } else {
        NoCanonicalIsSource(lib, ev, groups, i, i);
      }
    }
  }

  lemma {:induction false} NoCanonicalIsSource(lib: Library, ev: Evidence, groups: seq<Group>, i: nat, j: nat)
    requires UniqueMbids(lib) && Grouped(lib, ev, groups) && i < |groups| && j < |groups|
    ensures groups[i].canonical !in Ids(groups[j].sources)
  {
    if i != j {
      GroupsApart(lib, ev, groups, i, j);
    } else {
      assert Planned(lib, ev, groups[i]);
      hide Linked, OwnsPresentAlbum, Collides;
      assert groups[i].canonical in Ids(groups[i].sources) ==> MergeSource(lib, ev, groups[i].mbid, groups[i].canonical);
    }
  }

  /** No row refers to a retired artist any more. */
  lemma {:induction false} NoReferenceToRetired(lib: Library, ev: Evidence, groups: seq<Group>, stamp: int)
    requires UniqueMbids(lib) && Grouped(lib, ev, groups)
    requires forall i :: 0 <= i < |groups| ==> HasArtists(lib, groups[i])
    ensures var end := MergedAll(lib, groups, stamp);
            && (forall k :: k in end.albums ==> !Retired(groups, end.albums[k].artist))
            && (forall t :: t in end.tracks ==> !Retired(groups, end.tracks[t].artist))
            && (forall c :: c in end.albumCredits ==> !Retired(groups, end.albumCredits[c]))
            && (forall c :: c in end.trackCredits ==> !Retired(groups, end.trackCredits[c]))
  {
    var end := MergedAll(lib, groups, stamp);
    ConsolidationRedirects(lib, ev, groups, stamp);
    forall x
      ensures !Retired(groups, Target(groups, x))
    {
      TargetNotRetired(lib, ev, groups, x);
    }
    hide MergedAll, Target, Retired, Grouped;
    var f := x => Target(groups, x);
    assert forall k :: k in end.albums ==> end.albums[k].artist == f(lib.albums[k].artist);
    assert forall t :: t in end.tracks ==> end.tracks[t].artist == f(lib.tracks[t].artist);
    assert forall c :: c in end.albumCredits ==> end.albumCredits[c] == f(lib.albumCredits[c]);
    assert forall c :: c in end.trackCredits ==> end.trackCredits[c] == f(lib.trackCredits[c]);
  }

  /** Within every merged group, untagged albums keep distinct folded titles. */
  lemma {:induction false} MergedTitlesAreDistinct(lib: Library, ev: Evidence, groups: seq<Group>, i: nat, stamp: int)
    requires UniqueMbids(lib) && Grouped(lib, ev, groups) && i < |groups| && Applies(groups[i])
    requires forall j :: 0 <= j < |groups| ==> HasArtists(lib, groups[j])
    ensures var albums := MergedAll(lib, groups, stamp).albums;
            forall j, k | j in albums && k in albums && j != k && !albums[j].tagged && !albums[k].tagged &&
                          albums[j].artist == groups[i].canonical && albums[k].artist == groups[i].canonical ::
              albums[j].titleKey != albums[k].titleKey
  {
    var end, g := MergedAll(lib, groups, stamp), groups[i];
    ConsolidationRedirects(lib, ev, groups, stamp);
    assert Planned(lib, ev, g);
    forall x
      ensures Target(groups, x) == g.canonical ==> x in {g.canonical} + Ids(g.sources)
    {
      IntoCanonical(lib, ev, groups, i, x);
    }
    hide MergedAll, MergeSource, Grouped, Planned, Target, Ids;
    TitlesStayDistinct(lib, end, x => Target(groups, x), g.canonical, {g.canonical} + Ids(g.sources));
    hide Collides;
  }

  /** Distinct titles survive a redirection that gathers albums only from the artists checked. */
  lemma {:induction false} TitlesStayDistinct(x: Library, y: Library, f: int -> int, c: int, artists: set<int>)
    requires Redirected(x, y, f) && !Collides(x, artists) && forall a :: f(a) == c ==> a in artists
    ensures forall j, k | j in y.albums && k in y.albums && j != k && !y.albums[j].tagged && !y.albums[k].tagged &&
                          y.albums[j].artist == c && y.albums[k].artist == c :: y.albums[j].titleKey != y.albums[k].titleKey
  {
    forall j, k | j in y.albums && k in y.albums && j != k && !y.albums[j].tagged && !y.albums[k].tagged &&
                  y.albums[j].artist == c && y.albums[k].artist == c
      ensures y.albums[j].titleKey != y.albums[k].titleKey
    {
      assert !SameTitle(x.albums[j], x.albums[k], artists);
      assert y.albums[j].artist == f(x.albums[j].artist) && y.albums[k].artist == f(x.albums[k].artist);
    }
  }

  lemma {:induction false} IntoCanonical(lib: Library, ev: Evidence, groups: seq<Group>, i: nat, x: int)
    requires UniqueMbids(lib) && Grouped(lib, ev, groups) && i < |groups|
    ensures Target(groups, x) == groups[i].canonical ==> x in {groups[i].canonical} + Ids(groups[i].sources)
  {
    TargetCases(groups, x);
    forall j | 0 <= j < |groups| && groups[j].canonical == groups[i].canonical
      ensures j == i
    {
    }
    hide Planned, Target, Applies;
  }

  // ---------------------------------------------------------------------
  // Progress

  /** The duplicates left to merge: untagged artists that own a present album. */
  function UntaggedOwners(lib: Library): set<int> {
    set a | a in lib.artists && lib.artists[a].mbid.None? && OwnsPresentAlbum(lib, a)
  }

  function AnyApplies(groups: seq<Group>): bool {
    exists i :: 0 <= i < |groups| && Applies(groups[i])
  }

  lemma {:induction false} OwnersOnlyLeave(lib: Library, ev: Evidence, groups: seq<Group>, stamp: int, a: int)
    requires UniqueMbids(lib) && Grouped(lib, ev, groups)
    requires forall i :: 0 <= i < |groups| ==> HasArtists(lib, groups[i])
    requires a in UntaggedOwners(MergedAll(lib, groups, stamp))
    ensures a in UntaggedOwners(lib) && !Retired(groups, a)
  {
    var end := MergedAll(lib, groups, stamp);
    ConsolidationRedirects(lib, ev, groups, stamp);
    NoReferenceToRetired(lib, ev, groups, stamp);
    MergingKeepsArtists(lib, groups, stamp, a);
    forall i | 0 <= i < |groups|
      ensures groups[i].canonical != a
    {
      assert Planned(lib, ev, groups[i]);
    }
    hide MergedAll, Retired, Applies, Grouped;
    var k :| k in end.albums && end.albums[k].artist == a && !end.albums[k].missing;
    var f := x => Target(groups, x);
    assert end.albums[k].artist == f(lib.albums[k].artist);
    TargetCases(groups, lib.albums[k].artist);
  }

  /** A run that changes anything leaves strictly fewer duplicates. */
  lemma {:induction false} ChangingRunMakesProgress(lib: Library, ev: Evidence, groups: seq<Group>, stamp: int)
    requires UniqueMbids(lib) && Grouped(lib, ev, groups) && AnyApplies(groups)
    requires forall i :: 0 <= i < |groups| ==> HasArtists(lib, groups[i])
    ensures |UntaggedOwners(MergedAll(lib, groups, stamp))| < |UntaggedOwners(lib)|
  {
    var end := MergedAll(lib, groups, stamp);
    var o := RetiredOwner(lib, ev, groups);
    hide MergedAll, Grouped, UntaggedOwners, Applies;
    forall a | a in UntaggedOwners(end)
      ensures a in UntaggedOwners(lib) - {o}
    {
      OwnersOnlyLeave(lib, ev, groups, stamp, a);
    }
    SubsetCardinality(UntaggedOwners(end), UntaggedOwners(lib) - {o});
    assert |UntaggedOwners(lib) - {o}| == |UntaggedOwners(lib)| - 1;
  }

  lemma {:induction false} RetiredOwner(lib: Library, ev: Evidence, groups: seq<Group>) returns (o: int)
    requires Grouped(lib, ev, groups) && AnyApplies(groups)
    ensures Retired(groups, o) && o in UntaggedOwners(lib)
  {
    var i :| 0 <= i < |groups| && Applies(groups[i]);
    o := OwnerAmongSources(lib, ev, groups[i]);
  }

  /** A group with sources has an owner of a present album among them. */
  lemma {:induction false} OwnerAmongSources(lib: Library, ev: Evidence, g: Group) returns (o: int)
    requires Planned(lib, ev, g) && g.sources != []
    ensures o in Ids(g.sources) && o in UntaggedOwners(lib)
  {
    hide Collides;
    var a := g.sources[0].id;
    assert a in Ids(g.sources);
    assert MergeSource(lib, ev, g.mbid, a);
    o :| o in lib.artists && Owner(lib, ev, g.mbid, o) && Linked(lib, o, a);
    hide OwnsPresentAlbum;
    assert Linked(lib, o, o);
    assert MergeSource(lib, ev, g.mbid, o);
  }

  // ---------------------------------------------------------------------
  // Stamps and artist rows

  predicate CreditsDiffer(x: map<(int, int), int>, y: map<(int, int), int>, owner: int) {
    exists c :: c in x && c.0 == owner && (c !in y || y[c] != x[c])
  }

  /** Stamps are complete: a present album or track whose artist or credits differ carries the
      run's sequence number, and no other number is ever written. */
  ghost predicate AlbumStamped(x: Library, y: Library, k: int, stamp: int) {
    k in x.albums && k in y.albums ==>
      && (y.albums[k].changeSeq == x.albums[k].changeSeq || y.albums[k].changeSeq == stamp)
      && (y.albums[k].artist != x.albums[k].artist ==> y.albums[k].changeSeq == stamp)
      && (!x.albums[k].missing && CreditsDiffer(x.albumCredits, y.albumCredits, k) ==> y.albums[k].changeSeq == stamp)
  }

  ghost predicate TrackStamped(x: Library, y: Library, t: int, stamp: int) {
    t in x.tracks && t in y.tracks ==>
      && (y.tracks[t].changeSeq == x.tracks[t].changeSeq || y.tracks[t].changeSeq == stamp)
      && (y.tracks[t].artist != x.tracks[t].artist || y.tracks[t].artistName != x.tracks[t].artistName ==>
            y.tracks[t].changeSeq == stamp)
      && (!x.tracks[t].missing && CreditsDiffer(x.trackCredits, y.trackCredits, t) ==> y.tracks[t].changeSeq == stamp)
  }

  ghost predicate Stamped(x: Library, y: Library, stamp: int) {
    && y.albumCredits.Keys == x.albumCredits.Keys && y.trackCredits.Keys == x.trackCredits.Keys
    && y.albums.Keys == x.albums.Keys && y.tracks.Keys == x.tracks.Keys
    && (forall k :: k in x.albums ==> AlbumStamped(x, y, k, stamp) && y.albums[k].missing == x.albums[k].missing)
    && (forall t :: t in x.tracks ==> TrackStamped(x, y, t, stamp) && y.tracks[t].missing == x.tracks[t].missing)
  }

  lemma {:induction false} CreditsDifferTrans(x: map<(int, int), int>, y: map<(int, int), int>, z: map<(int, int), int>, owner: int)
    requires x.Keys == y.Keys && y.Keys == z.Keys && CreditsDiffer(x, z, owner)
    ensures CreditsDiffer(x, y, owner) || CreditsDiffer(y, z, owner)
  {
    var c :| c in x && c.0 == owner && (c !in z || z[c] != x[c]);
    assert c in y && c in z;
  }

  lemma {:induction false} StampedTrans(x: Library, y: Library, z: Library, stamp: int)
    requires Stamped(x, y, stamp) && Stamped(y, z, stamp)
    ensures Stamped(x, z, stamp)
  {
    hide CreditsDiffer;
    forall k | k in x.albums
      ensures AlbumStamped(x, z, k, stamp)
    {
      assert AlbumStamped(x, y, k, stamp) && AlbumStamped(y, z, k, stamp);
      if CreditsDiffer(x.albumCredits, z.albumCredits, k) {
        CreditsDifferTrans(x.albumCredits, y.albumCredits, z.albumCredits, k);
      }
    }
    forall t | t in x.tracks
      ensures TrackStamped(x, z, t, stamp)
    {
      assert TrackStamped(x, y, t, stamp) && TrackStamped(y, z, t, stamp);
      if CreditsDiffer(x.trackCredits, z.trackCredits, t) {
        CreditsDifferTrans(x.trackCredits, y.trackCredits, z.trackCredits, t);
      }
    }
  }

  lemma {:induction false} MovedCreditsDiffer(credits: map<(int, int), int>, source: int, canonical: int, owner: int)
    ensures MovedCredits(credits, source, canonical).Keys == credits.Keys
    ensures CreditsDiffer(credits, MovedCredits(credits, source, canonical), owner) ==> CreditedOn(credits, owner, source)
  {
  }

  lemma {:induction false} OneIsStamped(lib: Library, g: Group, s: Source, stamp: int)
    requires g.canonical in lib.artists && s.id in lib.artists
    ensures Stamped(lib, MergedOne(lib, g, s, stamp), stamp)
  {
    var y := MergedOne(lib, g, s, stamp);
    forall k
      ensures CreditsDiffer(lib.albumCredits, y.albumCredits, k) ==> CreditedOn(lib.albumCredits, k, s.id)
      ensures CreditsDiffer(lib.trackCredits, y.trackCredits, k) ==> CreditedOn(lib.trackCredits, k, s.id)
    {
      MovedCreditsDiffer(lib.albumCredits, s.id, g.canonical, k);
      MovedCreditsDiffer(lib.trackCredits, s.id, g.canonical, k);
    }
    MovedCreditsDiffer(lib.albumCredits, s.id, g.canonical, 0);
    MovedCreditsDiffer(lib.trackCredits, s.id, g.canonical, 0);
    hide CreditsDiffer, CreditedOn, MovedCredits;
  }

  lemma {:induction false} SourcesAreStamped(lib: Library, g: Group, n: nat, stamp: int)
    requires HasArtists(lib, g) && n <= |g.sources|
    ensures Stamped(lib, MergedSources(lib, g, n, stamp), stamp)
  {
    hide CreditsDiffer, MergedOne;
    if n > 0 {
      hide Stamped;
      SourcesAreStamped(lib, g, n - 1, stamp);
      OneIsStamped(MergedSources(lib, g, n - 1, stamp), g, g.sources[n - 1], stamp);
      StampedTrans(lib, MergedSources(lib, g, n - 1, stamp), MergedSources(lib, g, n, stamp), stamp);
    } else {
      NothingDiffers(lib.albumCredits);
      NothingDiffers(lib.trackCredits);
    }
  }

  lemma {:induction false} NothingDiffers(x: map<(int, int), int>)
    ensures forall k :: !CreditsDiffer(x, x, k)
  {
  }

  lemma {:induction false} StampedSame(lib: Library, y: Library, stamp: int)
    requires y == lib.(artists := y.artists)
    ensures Stamped(lib, y, stamp)
  {
    hide CreditsDiffer;
    NothingDiffers(lib.albumCredits);
    NothingDiffers(lib.trackCredits);
  }

  /** Every change the run makes to what clients see of albums and tracks is stamped. */
  lemma {:induction false} ConsolidationIsStamped(lib: Library, groups: seq<Group>, stamp: int)
    requires forall i :: 0 <= i < |groups| ==> HasArtists(lib, groups[i])
    ensures Stamped(lib, MergedAll(lib, groups, stamp), stamp)
  {
    hide Stamped, MergedSources, OwnsPresentAlbum;
    if groups == [] {
      StampedSame(lib, lib, stamp);
    } else {
      var rest, g := groups[..|groups| - 1], groups[|groups| - 1];
      var mid := MergedAll(lib, rest, stamp);
      ConsolidationIsStamped(lib, rest, stamp);
      assert HasArtists(lib, g);
      if Applies(g) {
        var merged := MergedSources(mid, g, |g.sources|, stamp);
        SourcesAreStamped(mid, g, |g.sources|, stamp);
        StampedTrans(lib, mid, merged, stamp);
        StampedSame(merged, Restamped(merged, g.canonical, stamp), stamp);
        StampedTrans(lib, merged, MergedAll(lib, groups, stamp), stamp);
      }
    }
  }

  /** The canonical artist's own art, or else the first source's art that exists. */
  function FirstArt(own: Option<int>, sources: seq<Source>): Option<int> {
    if sources == [] then own
    else
      var before := FirstArt(own, sources[..|sources| - 1]);
      if before.None? then sources[|sources| - 1].art else before
  }

  lemma {:induction false} ArtAfterSources(lib: Library, g: Group, n: nat, stamp: int)
    requires HasArtists(lib, g) && n <= |g.sources| && g.canonical !in Ids(g.sources)
    ensures MergedSources(lib, g, n, stamp).artists[g.canonical].art == FirstArt(lib.artists[g.canonical].art, g.sources[..n])
  {
    if n > 0 {
      ArtAfterSources(lib, g, n - 1, stamp);
      assert g.sources[..n][..n - 1] == g.sources[..n - 1];
      assert g.sources[n - 1].id in Ids(g.sources);
      assert g.sources[n - 1].id != g.canonical;
      hide MovedCredits, MergedAlbum, MergedTrack, Ids;
    }
  }

  lemma {:induction false} RetiredBySources(lib: Library, g: Group, n: nat, stamp: int, a: int)
    requires HasArtists(lib, g) && n <= |g.sources| && a in Ids(g.sources[..n]) && g.canonical !in Ids(g.sources)
    ensures var end := MergedSources(lib, g, n, stamp); a in end.artists && end.artists[a].missing && end.artists[a].changeSeq == stamp
  {
    IdsGrow(g.sources, n, a);
    assert a in Ids(g.sources) && g.sources[n - 1].id in Ids(g.sources) by {
      var i :| 0 <= i < n && g.sources[..n][i].id == a;
      assert g.sources[i].id == a;
    }
    if a in Ids(g.sources[..n - 1]) {
      RetiredBySources(lib, g, n - 1, stamp, a);
    }
  }

  /** A merged group's artists once the run is over: every source is missing and stamped; the
      canonical artist is stamped, has the first art there was, and is present exactly when it
      owns a present album. */
  ghost predicate GroupDone(lib: Library, end: Library, g: Group, stamp: int)
    requires HasArtists(lib, g)
  {
    && g.canonical in end.artists && end.artists[g.canonical].changeSeq == stamp
    && end.artists[g.canonical].art == FirstArt(lib.artists[g.canonical].art, g.sources)
    && (end.artists[g.canonical].missing <==> !OwnsPresentAlbum(end, g.canonical))
    && (forall a :: a in Ids(g.sources) ==> a in end.artists && end.artists[a].missing && end.artists[a].changeSeq == stamp)
  }

  lemma {:induction false} GroupJustDone(lib: Library, g: Group, stamp: int)
    requires HasArtists(lib, g) && Applies(g) && g.canonical !in Ids(g.sources)
    ensures GroupDone(lib, MergedGroup(lib, g, stamp), g, stamp)
  {
    assert g.sources[..|g.sources|] == g.sources;
    ArtAfterSources(lib, g, |g.sources|, stamp);
    forall a | a in Ids(g.sources)
      ensures var end := MergedSources(lib, g, |g.sources|, stamp);
              a in end.artists && end.artists[a].missing && end.artists[a].changeSeq == stamp
    {
      RetiredBySources(lib, g, |g.sources|, stamp, a);
    }
    hide MergedSources;
  }

  /** Merging another group leaves a finished one finished. */
  lemma {:induction false} GroupStaysDone(lib: Library, mid: Library, g: Group, other: Group, stamp: int)
    requires HasArtists(lib, g) && HasArtists(mid, other) && GroupDone(lib, mid, g, stamp)
    requires forall a :: a in {g.canonical} + Ids(g.sources) ==> !InGroup(other, a)
    requires other.canonical !in Ids(other.sources)
    ensures GroupDone(lib, MergedGroup(mid, other, stamp), g, stamp)
  {
    var end := MergedGroup(mid, other, stamp);
    GroupRedirects(mid, other, stamp);
    var f := a => if Applies(other) && a in Ids(other.sources) then other.canonical else a;
    assert KeepsReferences(f, g.canonical) by {
      assert !InGroup(other, g.canonical);
    }
    OwnsKept(mid, end, f, g.canonical);
    hide OwnsPresentAlbum, Redirected, KeepsReferences, MergedSources;
    forall a | a in {g.canonical} + Ids(g.sources)
      ensures end.artists.Keys == mid.artists.Keys && a in mid.artists && end.artists[a] == mid.artists[a]
    {
      assert other.sources[..|other.sources|] == other.sources;
      SourcesKeepArtists(mid, other, |other.sources|, stamp, a);
      assert !InGroup(other, a);
    }
  }

  lemma {:induction false} EveryGroupDone(lib: Library, ev: Evidence, groups: seq<Group>, i: nat, stamp: int)
    requires UniqueMbids(lib) && Grouped(lib, ev, groups) && i < |groups| && Applies(groups[i])
    requires forall j :: 0 <= j < |groups| ==> HasArtists(lib, groups[j])
    ensures GroupDone(lib, MergedAll(lib, groups, stamp), groups[i], stamp)
  {
    hide GroupDone, Grouped, Applies, MergedGroup, FirstArt, OwnsPresentAlbum, UniqueMbids;
    var last := |groups| - 1;
    var rest, g := groups[..last], groups[last];
    if i < last {
      GroupedPrefix(lib, ev, groups);
      EveryGroupDone(lib, ev, rest, i, stamp);
      EarlierGroupStaysDone(lib, ev, groups, i, stamp);
    } else {
      LastGroupDone(lib, ev, groups, stamp);
    }
  }

  lemma {:induction false} EarlierGroupStaysDone(lib: Library, ev: Evidence, groups: seq<Group>, i: nat, stamp: int)
    requires UniqueMbids(lib) && Grouped(lib, ev, groups) && i < |groups| - 1
    requires forall j :: 0 <= j < |groups| ==> HasArtists(lib, groups[j])
    requires GroupDone(lib, MergedAll(lib, groups[..|groups| - 1], stamp), groups[i], stamp)
    ensures GroupDone(lib, MergedAll(lib, groups, stamp), groups[i], stamp)
  {
    hide GroupDone, Grouped, Applies, MergedGroup, FirstArt, OwnsPresentAlbum, UniqueMbids;
    var last := |groups| - 1;
    var rest, g := groups[..last], groups[last];
    GroupsApart(lib, ev, groups, i, last);
    GroupsApart(lib, ev, groups, last, i);
    assert HasArtists(lib, g);
    GroupStaysDone(lib, MergedAll(lib, rest, stamp), groups[i], g, stamp);
  }

  lemma {:induction false} LastGroupDone(lib: Library, ev: Evidence, groups: seq<Group>, stamp: int)
    requires groups != [] && UniqueMbids(lib) && Grouped(lib, ev, groups) && Applies(groups[|groups| - 1])
    requires forall j :: 0 <= j < |groups| ==> HasArtists(lib, groups[j])
    ensures GroupDone(lib, MergedAll(lib, groups, stamp), groups[|groups| - 1], stamp)
  {
    hide Grouped, FirstArt, UniqueMbids, MergedGroup, Applies;
    var last := |groups| - 1;
    CanonicalUntouched(lib, ev, groups, stamp);
    NoCanonicalIsSource(lib, ev, groups, last, last);
    assert HasArtists(lib, groups[last]);
    GroupJustDone(MergedAll(lib, groups[..last], stamp), groups[last], stamp);
  }

  lemma {:induction false} CanonicalUntouched(lib: Library, ev: Evidence, groups: seq<Group>, stamp: int)
    requires groups != [] && UniqueMbids(lib) && Grouped(lib, ev, groups)
    requires forall j :: 0 <= j < |groups| ==> HasArtists(lib, groups[j])
    ensures var c := groups[|groups| - 1].canonical;
            var mid := MergedAll(lib, groups[..|groups| - 1], stamp);
            c in lib.artists && c in mid.artists && mid.artists[c] == lib.artists[c]
  {
    var c := groups[|groups| - 1].canonical;
    hide Grouped;
    MineKept(lib, ev, groups, stamp, c);
  }

  // ---------------------------------------------------------------------
  // The tables and the transaction

  predicate PendingMetadata(lib: Library) {
    exists a :: a in lib.artists && lib.artists[a].mbid.Some? && !lib.artists[a].fetched
  }

  /** `counter` is the library sequence, `evaluated` the number the last run left as its mark. */
  class Tables {
    var artists: map<int, Artist>
    var albums: map<int, Album>
    var tracks: map<int, Track>
    var albumCredits: map<(int, int), int>
    var trackCredits: map<(int, int), int>
    var counter: int
    var evaluated: Option<int>

    function View(): Library
      reads this
    {
      Library(artists, albums, tracks, albumCredits, trackCredits)
    }

    /** matchingAlbumOwnersTx. */
    method MatchingAlbumOwners(ev: Evidence, mbid: int) returns (owners: seq<int>)
      ensures forall a :: a in owners <==> Owner(View(), ev, mbid, a)
    {
      var ids := Enumerate(artists.Keys);
      owners := [];
      var i := 0;
      while i < |ids|
        invariant 0 <= i <= |ids|
        invariant forall a :: a in owners <==> a in ids[..i] && Owner(View(), ev, mbid, a)
      {
        if Owner(View(), ev, mbid, ids[i]) {
          owners := owners + [ids[i]];
        }
        i := i + 1;
      }
      assert ids[..|ids|] == ids;
      assert forall a :: a in Elements(ids) <==> a in artists;
    }

    /** linkedMatchingArtistsTx: each linked artist once, whichever owners it is linked to. */
    method LinkedMatchingArtists(ev: Evidence, mbid: int, owners: seq<int>) returns (sources: seq<Source>)
      ensures forall a :: a in Ids(sources) <==> Candidate(ev, mbid, a) && exists i :: 0 <= i < |owners| && Linked(View(), owners[i], a)
      ensures forall i, j :: 0 <= i < j < |sources| ==> sources[i].id != sources[j].id
      ensures forall i :: 0 <= i < |sources| ==> Untagged(View(), sources[i].id) && sources[i].art == artists[sources[i].id].art
    {
      hide Linked, Candidate;
      sources := [];
      var i := 0;
      while i < |owners|
        invariant 0 <= i <= |owners|
        invariant Listed(sources)
        invariant forall a :: a in Ids(sources) <==> Candidate(ev, mbid, a) && LinkedToSome(owners[..i], a)
      {
        sources := LinkedTo(ev, mbid, owners[i], sources);
        forall a
          ensures LinkedToSome(owners[..i + 1], a) <==> LinkedToSome(owners[..i], a) || Linked(View(), owners[i], a)
        {
          LinkedGrows(owners, i, a);
        }
        i := i + 1;
      }
      assert owners[..|owners|] == owners;
    }

    /** The candidates linked to one owner, added to those found before. */
    method LinkedTo(ev: Evidence, mbid: int, owner: int, found: seq<Source>) returns (sources: seq<Source>)
      requires Listed(found)
      ensures Listed(sources)
      ensures forall a :: a in Ids(sources) <==> a in Ids(found) || (Candidate(ev, mbid, a) && Linked(View(), owner, a))
    {
      hide Linked;
      sources := found;
      var ids := Enumerate(artists.Keys);
      assert forall a :: a in Elements(ids) <==> a in artists;
      var j := 0;
      while j < |ids|
        invariant 0 <= j <= |ids|
        invariant Listed(sources)
        invariant forall a :: a in Ids(sources) <==>
                    a in Ids(found) || (a in ids[..j] && Candidate(ev, mbid, a) && Linked(View(), owner, a))
      {
        var a := ids[j];
        assert a in Elements(ids);
        if Candidate(ev, mbid, a) && Linked(View(), owner, a) && a !in Ids(sources) {
          IdsAppend(sources, Source(a, artists[a].art));
          sources := sources + [Source(a, artists[a].art)];
        }
        j := j + 1;
      }
      assert ids[..|ids|] == ids;
    }

    predicate Candidate(ev: Evidence, mbid: int, a: int)
      reads this
    {
      Untagged(View(), a) && Matches(ev, artists[a].key, mbid)
    }

    predicate LinkedToSome(owners: seq<int>, a: int)
      reads this
    {
      exists i :: 0 <= i < |owners| && Linked(View(), owners[i], a)
    }

    predicate Listed(sources: seq<Source>)
      reads this
    {
      && (forall i, j :: 0 <= i < j < |sources| ==> sources[i].id != sources[j].id)
      && (forall i :: 0 <= i < |sources| ==> Untagged(View(), sources[i].id) && sources[i].art == artists[sources[i].id].art)
    }

    lemma {:induction false} LinkedGrows(owners: seq<int>, i: nat, a: int)
      requires i < |owners|
      ensures LinkedToSome(owners[..i + 1], a) <==> LinkedToSome(owners[..i], a) || Linked(View(), owners[i], a)
    {
      hide Linked;
      if k :| 0 <= k < i && Linked(View(), owners[..i][k], a) {
        assert owners[..i + 1][k] == owners[k];
      }
      if Linked(View(), owners[i], a) {
        assert owners[..i + 1][i] == owners[i];
      }
      var all := owners[..i + 1];
      if k :| 0 <= k < |all| && Linked(View(), all[k], a) && k != i {
        assert owners[..i][k] == owners[k];
      }
    }

    /** artistGroupAlbumCollisionTx: one pass over the untagged albums. */
    method AlbumCollision(ids: set<int>) returns (collides: bool)
      ensures collides <==> Collides(View(), ids)
      ensures collides <==> exists j, k :: j in albums && k in albums && j != k && !albums[j].tagged && !albums[k].tagged &&
                                           albums[j].artist in ids && albums[k].artist in ids && albums[j].titleKey == albums[k].titleKey
    {
      var rows := Enumerate(albums.Keys);
      assert forall k :: k in Elements(rows) <==> k in albums;
      var titles: set<string> := {};
      var i := 0;
      while i < |rows|
        invariant 0 <= i <= |rows|
        invariant forall t :: t in titles <==>
                    exists k :: 0 <= k < i && rows[k] in albums && Counted(albums[rows[k]], ids) && albums[rows[k]].titleKey == t
        invariant forall j, k :: 0 <= j < k < i && rows[j] in albums && rows[k] in albums ==>
                    !SameTitle(albums[rows[j]], albums[rows[k]], ids)
      {
        assert rows[i] in Elements(rows);
        var al := albums[rows[i]];
        if Counted(al, ids) {
          if al.titleKey in titles {
            var k :| 0 <= k < i && rows[k] in albums && Counted(albums[rows[k]], ids) && albums[rows[k]].titleKey == al.titleKey;
            assert SameTitle(albums[rows[k]], albums[rows[i]], ids);
            return true;
          }
          titles := titles + {al.titleKey};
        }
        i := i + 1;
      }
      collides := false;
      forall j, k | j in albums && k in albums && j != k
        ensures !SameTitle(albums[j], albums[k], ids)
      {
        assert j in Elements(rows) && k in Elements(rows);
        var a :| 0 <= a < |rows| && rows[a] == j;
        var b :| 0 <= b < |rows| && rows[b] == k;
        if a < b {
          assert !SameTitle(albums[rows[a]], albums[rows[b]], ids);
        } else {
          assert !SameTitle(albums[rows[b]], albums[rows[a]], ids);
        }
      }
    }

    /** artistMergeGroupsTx. */
    method PlanGroups(ev: Evidence) returns (groups: seq<Group>)
      requires UniqueMbids(View())
      ensures Plan(View(), ev, groups)
    {
      var ids := Enumerate(set a | a in artists && artists[a].mbid.Some? && artists[a].fetched);
      groups := [];
      var i := 0;
      while i < |ids|
        invariant 0 <= i <= |ids| && |groups| == i
        invariant forall k :: 0 <= k < i ==> groups[k].canonical == ids[k] && Planned(View(), ev, groups[k])
      {
        assert ids[i] in Elements(ids);
        var g := PlanGroup(ev, ids[i]);
        groups := groups + [g];
        i := i + 1;
      }
      forall a | a in artists && artists[a].mbid.Some? && artists[a].fetched
        ensures exists k :: 0 <= k < |groups| && groups[k].canonical == a
      {
        assert a in Elements(ids);
        var k :| 0 <= k < |ids| && ids[k] == a;
        assert groups[k].canonical == a;
      }
      forall k | 0 <= k < |groups|
        ensures groups[k].canonical in artists && artists[groups[k].canonical].fetched
      {
        assert ids[k] in Elements(ids);
      }
    }

    method PlanGroup(ev: Evidence, a: int) returns (g: Group)
      requires a in artists && artists[a].mbid.Some?
      ensures g.canonical == a && Planned(View(), ev, g)
    {
      var mbid := artists[a].mbid.value;
      var owners := MatchingAlbumOwners(ev, mbid);
      var sources := LinkedMatchingArtists(ev, mbid, owners);
      var collides := AlbumCollision({a} + Ids(sources));
      g := Group(a, mbid, artists[a].name, artists[a].art, sources, collides);
      forall x
        ensures x in Ids(sources) <==> MergeSource(View(), ev, mbid, x)
      {
        if x in Ids(sources) {
          var i :| 0 <= i < |owners| && Linked(View(), owners[i], x);
          assert owners[i] in owners;
        }
        if MergeSource(View(), ev, mbid, x) {
          var o :| o in artists && Owner(View(), ev, mbid, o) && Linked(View(), o, x);
          assert o in owners;
        }
      }
    }

    method StampCreditParents(s: int, stamp: int)
      modifies this`albums, this`tracks
      ensures albums == map k | k in old(albums) :: CreditStampedAlbum(old(View()), k, s, stamp)
      ensures tracks == map t | t in old(tracks) :: CreditStampedTrack(old(View()), t, s, stamp)
    {
      ghost var before := View();
      albums := map k | k in albums :: CreditStampedAlbum(View(), k, s, stamp);
      tracks := map t | t in tracks :: CreditStampedTrack(View(), t, s, stamp);
      assert forall t :: t in before.tracks ==> tracks[t] == CreditStampedTrack(before, t, s, stamp);
    }

    /** The statements of consolidateArtistGroupsTx for one source, in order. */
    method Merge(g: Group, s: Source, canonicalArt: Option<int>, stamp: int) returns (art: Option<int>)
      requires g.canonical in artists && s.id in artists && canonicalArt == artists[g.canonical].art && s.id != g.canonical
      modifies this`artists, this`albums, this`tracks, this`albumCredits, this`trackCredits
      ensures View() == MergedOne(old(View()), g, s, stamp)
      ensures art == artists[g.canonical].art
    {
      ghost var before := View();
      hide OwnerMovedAlbum, OwnerMovedTrack, CreditStampedAlbum, CreditStampedTrack, MergedAlbum, MergedTrack, MovedCredits;
      StampCreditParents(s.id, stamp);
      MoveRows(g, s.id, stamp);
      StatementsMerge(before, g, s.id, stamp);
      assert albums == MergedOne(before, g, s, stamp).albums;
      assert tracks == MergedOne(before, g, s, stamp).tracks;
      art := canonicalArt;
      if art.None? && s.art.Some? {
        artists := artists[g.canonical := artists[g.canonical].(art := s.art)];
        art := s.art;
      }
      artists := artists[s.id := artists[s.id].(missing := true, changeSeq := stamp)];
      assert artists == MergedOne(before, g, s, stamp).artists;
    }

    method MoveRows(g: Group, s: int, stamp: int)
      modifies this`albums, this`tracks, this`albumCredits, this`trackCredits
      ensures albums == map k | k in old(albums) :: OwnerMovedAlbum(old(albums)[k], g, s, stamp)
      ensures tracks == map t | t in old(tracks) :: OwnerMovedTrack(old(tracks)[t], g, s, stamp)
      ensures albumCredits == MovedCredits(old(albumCredits), s, g.canonical)
      ensures trackCredits == MovedCredits(old(trackCredits), s, g.canonical)
    {
      albums := map k | k in albums :: OwnerMovedAlbum(albums[k], g, s, stamp);
      albumCredits := MovedCredits(albumCredits, s, g.canonical);
      tracks := map t | t in tracks :: OwnerMovedTrack(tracks[t], g, s, stamp);
      trackCredits := MovedCredits(trackCredits, s, g.canonical);
    }

    method MergeSources(g: Group, stamp: int)
      requires HasArtists(View(), g) && artists[g.canonical].art == g.art && g.canonical !in Ids(g.sources)
      modifies this`artists, this`albums, this`tracks, this`albumCredits, this`trackCredits
      ensures View() == MergedSources(old(View()), g, |g.sources|, stamp)
    {
      hide MergedOne;
      var canonicalArt := g.art;
      var j := 0;
      while j < |g.sources|
        invariant 0 <= j <= |g.sources|
        invariant View() == MergedSources(old(View()), g, j, stamp)
        invariant g.canonical in artists && canonicalArt == artists[g.canonical].art
      {
        assert g.sources[j].id in Ids(g.sources);
        assert g.sources[j].id in artists.Keys;
        canonicalArt := Merge(g, g.sources[j], canonicalArt, stamp);
        j := j + 1;
      }
    }

    /** The tail of one group: the canonical artist is stamped and its presence recomputed. */
    method MergeGroup(g: Group, stamp: int)
      requires HasArtists(View(), g) && artists[g.canonical].art == g.art && g.canonical !in Ids(g.sources) && Applies(g)
      modifies this`artists, this`albums, this`tracks, this`albumCredits, this`trackCredits
      ensures View() == MergedGroup(old(View()), g, stamp)
    {
      MergeSources(g, stamp);
      hide MergedSources, OwnsPresentAlbum;
      artists := artists[g.canonical := artists[g.canonical].(missing := !OwnsPresentAlbum(View(), g.canonical), changeSeq := stamp)];
    }

    method MergeIfSafe(ghost start: Library, groups: seq<Group>, i: nat, stamp: int, ghost ev: Evidence) returns (merged: bool)
      requires UniqueMbids(start) && Grouped(start, ev, groups) && i < |groups|
      requires forall j :: 0 <= j < |groups| ==> HasArtists(start, groups[j])
      requires View() == MergedAll(start, groups[..i], stamp)
      modifies this`artists, this`albums, this`tracks, this`albumCredits, this`trackCredits
      ensures View() == MergedAll(start, groups[..i + 1], stamp)
      ensures merged <==> Applies(groups[i])
    {
      hide Grouped, UniqueMbids, MergedGroup, MergedAll;
      MergedOneMore(start, groups, i, stamp);
      merged := !groups[i].collides && groups[i].sources != [];
      if merged {
        ReadyToMerge(start, ev, groups, i, stamp);
        MergeGroup(groups[i], stamp);
      }
    }

    /** consolidateArtistGroupsTx: the groups planned up front, merged one after the other. */
    method ConsolidateGroups(groups: seq<Group>, stamp: int, ghost ev: Evidence) returns (changed: bool)
      requires UniqueMbids(View()) && Grouped(View(), ev, groups)
      modifies this`artists, this`albums, this`tracks, this`albumCredits, this`trackCredits
      ensures forall i :: 0 <= i < |groups| ==> HasArtists(old(View()), groups[i])
      ensures View() == MergedAll(old(View()), groups, stamp)
      ensures changed <==> AnyApplies(groups)
    {
      ghost var start := View();
      AllHaveArtists(start, ev, groups);
      hide Grouped, UniqueMbids, AnyApplies, MergedAll, Applies;
      changed := false;
      var i := 0;
      while i < |groups|
        invariant 0 <= i <= |groups|
        invariant View() == MergedAll(start, groups[..i], stamp)
        invariant changed <==> AnyApplies(groups[..i])
      {
        var merged := MergeIfSafe(start, groups, i, stamp, ev);
        AnyAppliesGrows(groups, i);
        changed := changed || merged;
        i := i + 1;
      }
      assert groups[..|groups|] == groups;
    }

    /** ConsolidateMusicBrainzArtistsAtNextSequence: nothing while metadata is pending or nothing
        happened since the last run; otherwise a fresh plan, and a new sequence number only for
        a run that merges something. */
    method ConsolidateAtNextSequence(ev: Evidence) returns (changed: bool, ghost groups: seq<Group>)
      requires UniqueMbids(View())
      modifies this
      ensures old(evaluated == Some(counter) || exists a :: a in artists && artists[a].mbid != None && !artists[a].fetched) ==>
                !changed && View() == old(View()) && counter == old(counter) && evaluated == old(evaluated)
      ensures old(evaluated != Some(counter) && forall a :: a in artists && artists[a].mbid != None ==> artists[a].fetched) ==>
                && Plan(old(View()), ev, groups) && (forall i :: 0 <= i < |groups| ==> HasArtists(old(View()), groups[i]))
                && (changed <==> exists i :: 0 <= i < |groups| && !groups[i].collides && groups[i].sources != [])
                && evaluated == Some(counter)
                && counter == (if changed then old(counter) + 1 else old(counter))
                && View() == (if changed then MergedAll(old(View()), groups, counter) else old(View()))
    {
      hide UniqueMbids, MergedAll, HasArtists, Plan;
      groups := [];
      changed := false;
      if PendingMetadata(View()) || evaluated == Some(counter) {
        return;
      }
      var planned := PlanGroups(ev);
      groups := planned;
      AllHaveArtists(View(), ev, planned);
      if AnyApplies(planned) {
        counter := counter + 1;
        changed := ConsolidateGroups(planned, counter, ev);
      }
      evaluated := Some(counter);
    }
  }

  lemma {:induction false} AllHaveArtists(lib: Library, ev: Evidence, groups: seq<Group>)
    requires Grouped(lib, ev, groups)
    ensures forall i :: 0 <= i < |groups| ==> HasArtists(lib, groups[i])
  {
    forall i | 0 <= i < |groups|
      ensures HasArtists(lib, groups[i])
    {
      assert Planned(lib, ev, groups[i]);
    }
  }

  lemma {:induction false} MergedOneMore(lib: Library, groups: seq<Group>, i: nat, stamp: int)
    requires i < |groups| && forall j :: 0 <= j < |groups| ==> HasArtists(lib, groups[j])
    ensures var mid := MergedAll(lib, groups[..i], stamp);
            && HasArtists(mid, groups[i])
            && MergedAll(lib, groups[..i + 1], stamp) == MergedGroup(mid, groups[i], stamp)
            && (!Applies(groups[i]) ==> MergedGroup(mid, groups[i], stamp) == mid)
  {
    hide MergedSources;
    assert groups[..i + 1][..i] == groups[..i] && groups[..i + 1][i] == groups[i];
    assert HasArtists(lib, groups[i]);
  }

  lemma {:induction false} AnyAppliesGrows(groups: seq<Group>, i: nat)
    requires i < |groups|
    ensures AnyApplies(groups[..i + 1]) <==> AnyApplies(groups[..i]) || Applies(groups[i])
  {
    var all := groups[..i + 1];
    if k :| 0 <= k < i && Applies(groups[..i][k]) {
      assert Applies(all[k]);
    }
    if Applies(groups[i]) {
      assert Applies(all[i]);
    }
    if k :| 0 <= k < |all| && Applies(all[k]) && k != i {
      assert Applies(groups[..i][k]);
    }
  }

  /** When the run reaches a group, the art and ids its plan recorded are still current. */
  lemma {:induction false} ReadyToMerge(lib: Library, ev: Evidence, groups: seq<Group>, i: nat, stamp: int)
    requires UniqueMbids(lib) && Grouped(lib, ev, groups) && i < |groups|
    requires forall j :: 0 <= j < |groups| ==> HasArtists(lib, groups[j])
    ensures var mid := MergedAll(lib, groups[..i], stamp); var g := groups[i];
            HasArtists(mid, g) && mid.artists[g.canonical].art == g.art && g.canonical !in Ids(g.sources)
  {
    PlanStaysValid(lib, ev, groups, i, stamp);
    NoCanonicalIsSource(lib, ev, groups, i, i);
    hide Grouped, MergedAll, Collides, MergeSource;
  }

  /** The two album statements of a merge, and the two track statements. */
  function CreditStampedAlbum(lib: Library, k: int, source: int, stamp: int): Album
    requires k in lib.albums
  {
    if !lib.albums[k].missing && CreditedOn(lib.albumCredits, k, source) then lib.albums[k].(changeSeq := stamp) else lib.albums[k]
  }

  function CreditStampedTrack(lib: Library, t: int, source: int, stamp: int): Track
    requires t in lib.tracks
  {
    if !lib.tracks[t].missing && CreditedOn(lib.trackCredits, t, source) then lib.tracks[t].(changeSeq := stamp) else lib.tracks[t]
  }

  function OwnerMovedAlbum(al: Album, g: Group, source: int, stamp: int): Album {
    if al.artist == source then al.(artist := g.canonical, changeSeq := stamp) else al
  }

  function OwnerMovedTrack(tr: Track, g: Group, source: int, stamp: int): Track {
    if tr.artist == source then tr.(artist := g.canonical, artistName := g.name, changeSeq := stamp) else tr
  }

  lemma {:induction false} StatementsMerge(lib: Library, g: Group, source: int, stamp: int)
    ensures forall k :: k in lib.albums ==>
              OwnerMovedAlbum(CreditStampedAlbum(lib, k, source, stamp), g, source, stamp) == MergedAlbum(lib, k, g, source, stamp)
    ensures forall t :: t in lib.tracks ==>
              OwnerMovedTrack(CreditStampedTrack(lib, t, source, stamp), g, source, stamp) == MergedTrack(lib, t, g, source, stamp)
  {
    hide CreditedOn;
  }

  predicate Counted(al: Album, artists: set<int>) {
    !al.tagged && al.artist in artists
  }

  lemma {:induction false} IdsAppend(sources: seq<Source>, s: Source)
    ensures Ids(sources + [s]) == Ids(sources) + {s.id}
  {
    var all := sources + [s];
    assert all[|sources|].id == s.id;
    forall i | 0 <= i < |sources|
      ensures sources[i].id in Ids(all)
    {
      assert all[i].id == sources[i].id;
    }
  }
}
