/** What a plan of artist groups selects, and what a run of artist consolidation leaves in each
    row of the tables, in terms of their columns alone. */
module ConsolidatedRows {
  import opened Common
  import opened ArtistConsolidation

  // ---------------------------------------------------------------------
  // What a plan selects

  /** A present album names `o` as its artist. */
  predicate HasAlbum(lib: Library, o: int) {
    exists k :: k in lib.albums && lib.albums[k].artist == o && !lib.albums[k].missing
  }

  /** An artist without a MusicBrainz id whose name points to `mbid` alone. */
  predicate Duplicate(lib: Library, ev: Evidence, mbid: int, a: int) {
    a in lib.artists && lib.artists[a].mbid == None && lib.artists[a].key in ev && ev[lib.artists[a].key] == {mbid}
  }

  /** Artist a is o itself, or credited on an album of o, or a performer or credited on a track of one. */
  predicate Beside(lib: Library, o: int, a: int) {
    || a == o
    || (exists c :: c in lib.albumCredits && lib.albumCredits[c] == a && c.0 in lib.albums && lib.albums[c.0].artist == o)
    || (exists t :: t in lib.tracks && lib.tracks[t].artist == a &&
                    lib.tracks[t].album in lib.albums && lib.albums[lib.tracks[t].album].artist == o)
    || (exists c :: c in lib.trackCredits && lib.trackCredits[c] == a && c.0 in lib.tracks &&
                    lib.tracks[c.0].album in lib.albums && lib.albums[lib.tracks[c.0].album].artist == o)
  }

  /** The group of each tagged artist with known aliases: its row's id, name and art; as sources,
      once each, the duplicates beside a duplicate that has a present album; and whether two
      untagged albums of theirs have one title. */
  lemma PlanSelects(lib: Library, ev: Evidence, groups: seq<Group>, i: nat)
    requires Plan(lib, ev, groups) && i < |groups|
    ensures groups[i].canonical in lib.artists
    ensures var a, g := lib.artists[groups[i].canonical], groups[i];
            a.fetched && a.mbid == Some(g.mbid) && a.name == g.name && a.art == g.art
    ensures forall a :: a in lib.artists && lib.artists[a].mbid != None && lib.artists[a].fetched ==>
                          exists j :: 0 <= j < |groups| && groups[j].canonical == a
    ensures forall j :: 0 <= j < |groups| && groups[j].canonical == groups[i].canonical ==> j == i
    ensures forall a :: IsSource(groups[i], a) <==>
                          Duplicate(lib, ev, groups[i].mbid, a) &&
                          exists o :: Duplicate(lib, ev, groups[i].mbid, o) && HasAlbum(lib, o) && Beside(lib, o, a)
    ensures forall j, k :: 0 <= j < k < |groups[i].sources| ==> groups[i].sources[j].id != groups[i].sources[k].id
    ensures forall j :: 0 <= j < |groups[i].sources| ==>
                          groups[i].sources[j].id in lib.artists && groups[i].sources[j].art == lib.artists[groups[i].sources[j].id].art
    ensures groups[i].collides <==>
            exists j, k :: j in lib.albums && k in lib.albums && j != k && !lib.albums[j].tagged && !lib.albums[k].tagged &&
                           InOneGroup(groups[i], lib.albums[j].artist) && InOneGroup(groups[i], lib.albums[k].artist) &&
                           lib.albums[j].titleKey == lib.albums[k].titleKey
  {
    var g := groups[i];
    assert Planned(lib, ev, g);
    forall a
      ensures IsSource(g, a) <==> a in Ids(g.sources)
      ensures MergeSource(lib, ev, g.mbid, a) <==>
                Duplicate(lib, ev, g.mbid, a) && exists o :: Duplicate(lib, ev, g.mbid, o) && HasAlbum(lib, o) && Beside(lib, o, a)
    {
      SourceAgrees(lib, ev, g.mbid, a);
    }
    hide MergeSource, Ids, IsSource, Planned, Beside, HasAlbum, Duplicate;
    CollisionAgrees(lib, g);
  }

  predicate IsSource(g: Group, a: int) {
    exists j :: 0 <= j < |g.sources| && g.sources[j].id == a
  }

  predicate InOneGroup(g: Group, a: int) {
    a == g.canonical || IsSource(g, a)
  }

  lemma SourceAgrees(lib: Library, ev: Evidence, mbid: int, a: int)
    ensures MergeSource(lib, ev, mbid, a) <==>
              Duplicate(lib, ev, mbid, a) && exists o :: Duplicate(lib, ev, mbid, o) && HasAlbum(lib, o) && Beside(lib, o, a)
  {
    forall o
      ensures Linked(lib, o, a) <==> Beside(lib, o, a)
    {
    }
    hide Linked, Beside;
    if MergeSource(lib, ev, mbid, a) {
      var o :| o in lib.artists && Owner(lib, ev, mbid, o) && Linked(lib, o, a);
      assert Duplicate(lib, ev, mbid, o) && HasAlbum(lib, o);
    }
    if o :| Duplicate(lib, ev, mbid, o) && HasAlbum(lib, o) && Beside(lib, o, a) {
      assert Owner(lib, ev, mbid, o);
    }
  }

  lemma CollisionAgrees(lib: Library, g: Group)
    ensures Collides(lib, {g.canonical} + Ids(g.sources)) <==>
            exists j, k :: j in lib.albums && k in lib.albums && j != k && !lib.albums[j].tagged && !lib.albums[k].tagged &&
                           InOneGroup(g, lib.albums[j].artist) && InOneGroup(g, lib.albums[k].artist) &&
                           lib.albums[j].titleKey == lib.albums[k].titleKey
  {
    forall a
      ensures a in {g.canonical} + Ids(g.sources) <==> InOneGroup(g, a)
    {
    }
    hide Ids, InOneGroup;
  }

  // ---------------------------------------------------------------------
  // What a run leaves

  /** Artist a is merged into group i. */
  ghost predicate HandedTo(groups: seq<Group>, a: int, i: int) {
    0 <= i < |groups| && !groups[i].collides && IsSource(groups[i], a)
  }

  /** A present owner of these credits is named with a merged artist. */
  ghost predicate CreditHanded(groups: seq<Group>, credits: map<(int, int), int>, owner: int) {
    exists c, i :: c in credits && c.0 == owner && HandedTo(groups, credits[c], i)
  }

  lemma HandedTarget(lib: Library, ev: Evidence, groups: seq<Group>, a: int)
    requires UniqueMbids(lib) && Grouped(lib, ev, groups)
    ensures forall i :: HandedTo(groups, a, i) ==> Target(groups, a) == groups[i].canonical != a
    ensures (forall i :: !HandedTo(groups, a, i)) ==> Target(groups, a) == a
  {
    forall i
      ensures HandedTo(groups, a, i) <==> 0 <= i < |groups| && Applies(groups[i]) && a in Ids(groups[i].sources)
    {
    }
    hide HandedTo, Applies, Grouped;
    forall i | HandedTo(groups, a, i)
      ensures Target(groups, a) == groups[i].canonical != a
    {
      TargetOfSource(lib, ev, groups, i, a);
      NoCanonicalIsSource(lib, ev, groups, i, i);
    }
    if forall i :: !HandedTo(groups, a, i) {
      TargetOfOther(groups, a);
    }
  }

  /** Nothing refers an album, or the credits of a present one, to an artist that is merged away. */
  ghost predicate AlbumOutside(lib: Library, g: Group, k: int)
    requires k in lib.albums
  {
    && !IsSource(g, lib.albums[k].artist)
    && (lib.albums[k].missing || forall c :: c in lib.albumCredits && c.0 == k ==> !IsSource(g, lib.albumCredits[c]))
  }

  ghost predicate AlbumSame(x: Library, y: Library, k: int)
    requires k in x.albums
  {
    && k in y.albums && y.albums[k] == x.albums[k]
    && y.albumCredits.Keys == x.albumCredits.Keys
    && (!x.albums[k].missing ==> forall c :: c in x.albumCredits && c.0 == k ==> y.albumCredits[c] == x.albumCredits[c])
  }

  lemma {:induction false} SourcesLeaveAlbum(lib: Library, g: Group, n: nat, stamp: int, k: int)
    requires HasArtists(lib, g) && n <= |g.sources| && k in lib.albums && AlbumOutside(lib, g, k)
    ensures AlbumSame(lib, MergedSources(lib, g, n, stamp), k)
  {
    hide MergedOne, IsSource;
    if n > 0 {
      SourcesLeaveAlbum(lib, g, n - 1, stamp, k);
      OneLeavesAlbum(MergedSources(lib, g, n - 1, stamp), g, n - 1, stamp, k);
    }
  }

  lemma OneLeavesAlbum(lib: Library, g: Group, j: nat, stamp: int, k: int)
    requires HasArtists(lib, g) && j < |g.sources| && k in lib.albums && AlbumOutside(lib, g, k)
    ensures AlbumSame(lib, MergedOne(lib, g, g.sources[j], stamp), k)
  {
    hide MergedTrack, HasArtists;
    assert IsSource(g, g.sources[j].id);
  }

  lemma {:induction false} GroupsLeaveAlbum(lib: Library, groups: seq<Group>, stamp: int, k: int)
    requires forall i :: 0 <= i < |groups| ==> HasArtists(lib, groups[i])
    requires k in lib.albums && forall i :: 0 <= i < |groups| && !groups[i].collides ==> AlbumOutside(lib, groups[i], k)
    ensures AlbumSame(lib, MergedAll(lib, groups, stamp), k)
  {
    hide MergedSources, IsSource, OwnsPresentAlbum;
    if groups != [] {
      var rest, g := groups[..|groups| - 1], groups[|groups| - 1];
      GroupsLeaveAlbum(lib, rest, stamp, k);
      assert HasArtists(lib, g);
      var mid := MergedAll(lib, rest, stamp);
      if Applies(g) {
        assert AlbumOutside(lib, g, k);
        SourcesLeaveAlbum(mid, g, |g.sources|, stamp, k);
      }
    }
  }

  /** The album k after the run. */
  lemma AlbumRow(lib: Library, ev: Evidence, groups: seq<Group>, stamp: int, k: int)
    requires UniqueMbids(lib) && Grouped(lib, ev, groups) && k in lib.albums
    requires forall i :: 0 <= i < |groups| ==> HasArtists(lib, groups[i])
    ensures k in MergedAll(lib, groups, stamp).albums
    ensures forall i :: HandedTo(groups, lib.albums[k].artist, i) ==>
              MergedAll(lib, groups, stamp).albums[k] == lib.albums[k].(artist := groups[i].canonical, changeSeq := stamp)
    ensures (forall i :: !HandedTo(groups, lib.albums[k].artist, i)) ==>
              var credited := !lib.albums[k].missing && CreditHanded(groups, lib.albumCredits, k);
              MergedAll(lib, groups, stamp).albums[k] == lib.albums[k].(changeSeq := if credited then stamp else lib.albums[k].changeSeq)
  {
    var was, end := lib.albums[k], MergedAll(lib, groups, stamp);
    ConsolidationRedirects(lib, ev, groups, stamp);
    ConsolidationIsStamped(lib, groups, stamp);
    HandedTarget(lib, ev, groups, was.artist);
    hide MergedAll, Grouped, Target;
    var f := (a: int) => Target(groups, a);
    assert end.albums[k] == was.(artist := f(was.artist), changeSeq := end.albums[k].changeSeq);
    assert AlbumStamped(lib, end, k, stamp);
    if !was.missing && CreditHanded(groups, lib.albumCredits, k) {
      var c, i :| c in lib.albumCredits && c.0 == k && HandedTo(groups, lib.albumCredits[c], i);
      HandedTarget(lib, ev, groups, lib.albumCredits[c]);
      assert end.albumCredits[c] == f(lib.albumCredits[c]);
      assert CreditsDiffer(lib.albumCredits, end.albumCredits, k);
    } else if forall i :: !HandedTo(groups, was.artist, i) {
      forall i | 0 <= i < |groups| && !groups[i].collides
        ensures AlbumOutside(lib, groups[i], k)
      {
        assert !HandedTo(groups, was.artist, i);
        forall c | c in lib.albumCredits && c.0 == k && !was.missing
          ensures !IsSource(groups[i], lib.albumCredits[c])
        {
          assert !HandedTo(groups, lib.albumCredits[c], i);
        }
      }
      GroupsLeaveAlbum(lib, groups, stamp, k);
    }
  }

  ghost predicate TrackOutside(lib: Library, g: Group, t: int)
    requires t in lib.tracks
  {
    && !IsSource(g, lib.tracks[t].artist)
    && (lib.tracks[t].missing || forall c :: c in lib.trackCredits && c.0 == t ==> !IsSource(g, lib.trackCredits[c]))
  }

  ghost predicate TrackSame(x: Library, y: Library, t: int)
    requires t in x.tracks
  {
    && t in y.tracks && y.tracks[t] == x.tracks[t]
    && y.trackCredits.Keys == x.trackCredits.Keys
    && (!x.tracks[t].missing ==> forall c :: c in x.trackCredits && c.0 == t ==> y.trackCredits[c] == x.trackCredits[c])
  }

  lemma {:induction false} SourcesLeaveTrack(lib: Library, g: Group, n: nat, stamp: int, t: int)
    requires HasArtists(lib, g) && n <= |g.sources| && t in lib.tracks && TrackOutside(lib, g, t)
    ensures TrackSame(lib, MergedSources(lib, g, n, stamp), t)
  {
    hide MergedOne, IsSource;
    if n > 0 {
      SourcesLeaveTrack(lib, g, n - 1, stamp, t);
      OneLeavesTrack(MergedSources(lib, g, n - 1, stamp), g, n - 1, stamp, t);
    }
  }

  lemma OneLeavesTrack(lib: Library, g: Group, j: nat, stamp: int, t: int)
    requires HasArtists(lib, g) && j < |g.sources| && t in lib.tracks && TrackOutside(lib, g, t)
    ensures TrackSame(lib, MergedOne(lib, g, g.sources[j], stamp), t)
  {
    hide MergedAlbum, HasArtists;
    assert IsSource(g, g.sources[j].id);
  }

  lemma {:induction false} GroupsLeaveTrack(lib: Library, groups: seq<Group>, stamp: int, t: int)
    requires forall i :: 0 <= i < |groups| ==> HasArtists(lib, groups[i])
    requires t in lib.tracks && forall i :: 0 <= i < |groups| && !groups[i].collides ==> TrackOutside(lib, groups[i], t)
    ensures TrackSame(lib, MergedAll(lib, groups, stamp), t)
  {
    hide MergedSources, IsSource, OwnsPresentAlbum;
    if groups != [] {
      var rest, g := groups[..|groups| - 1], groups[|groups| - 1];
      GroupsLeaveTrack(lib, rest, stamp, t);
      assert HasArtists(lib, g);
      var mid := MergedAll(lib, rest, stamp);
      if Applies(g) {
        assert TrackOutside(lib, g, t);
        SourcesLeaveTrack(mid, g, |g.sources|, stamp, t);
      }
    }
  }

  /** A track that changes hands takes the name of its new artist. */
  ghost predicate Named(x: Library, y: Library, t: int, g: Group)
    requires t in x.tracks && t in y.tracks
  {
    if y.tracks[t].artist == x.tracks[t].artist then y.tracks[t].artistName == x.tracks[t].artistName
    else y.tracks[t].artist == g.canonical && y.tracks[t].artistName == g.name
  }

  lemma {:induction false} SourcesName(lib: Library, g: Group, n: nat, stamp: int, t: int)
    requires HasArtists(lib, g) && n <= |g.sources| && t in lib.tracks && !IsSource(g, g.canonical)
    ensures t in MergedSources(lib, g, n, stamp).tracks && Named(lib, MergedSources(lib, g, n, stamp), t, g)
  {
    if n > 0 {
      assert IsSource(g, g.sources[n - 1].id);
      hide MergedAlbum, IsSource, CreditedOn, HasArtists, MovedCredits;
      SourcesName(lib, g, n - 1, stamp, t);
    }
  }

  lemma {:induction false} GroupsName(lib: Library, ev: Evidence, groups: seq<Group>, stamp: int, t: int)
    requires UniqueMbids(lib) && Grouped(lib, ev, groups) && t in lib.tracks
    requires forall i :: 0 <= i < |groups| ==> HasArtists(lib, groups[i])
    ensures t in MergedAll(lib, groups, stamp).tracks
    ensures var tr := MergedAll(lib, groups, stamp).tracks[t];
            if tr.artist == lib.tracks[t].artist then tr.artistName == lib.tracks[t].artistName
            else exists i :: 0 <= i < |groups| && tr.artist == groups[i].canonical && tr.artistName == groups[i].name
  {
    hide MergedSources, OwnsPresentAlbum, Planned, UniqueMbids, Redirected, CreditedOn;
    if groups != [] {
      var rest, g := groups[..|groups| - 1], groups[|groups| - 1];
      var mid := MergedAll(lib, rest, stamp);
      GroupedPrefix(lib, ev, groups);
      GroupsName(lib, ev, rest, stamp, t);
      assert HasArtists(lib, g);
      PlanDisjointPrefix(lib, ev, groups);
      NameStep(lib, mid, groups, stamp, t);
    }
  }

  lemma NameStep(lib: Library, mid: Library, groups: seq<Group>, stamp: int, t: int)
    requires groups != [] && t in lib.tracks && t in mid.tracks && HasArtists(mid, groups[|groups| - 1])
    requires var g := groups[|groups| - 1];
             g.canonical !in Ids(g.sources) && forall i :: 0 <= i < |groups| - 1 ==> groups[i].canonical !in Ids(g.sources)
    requires var tr := mid.tracks[t];
             if tr.artist == lib.tracks[t].artist then tr.artistName == lib.tracks[t].artistName
             else exists i :: 0 <= i < |groups| - 1 && tr.artist == groups[i].canonical && tr.artistName == groups[i].name
    ensures t in MergedGroup(mid, groups[|groups| - 1], stamp).tracks
    ensures var tr := MergedGroup(mid, groups[|groups| - 1], stamp).tracks[t];
            if tr.artist == lib.tracks[t].artist then tr.artistName == lib.tracks[t].artistName
            else exists i :: 0 <= i < |groups| && tr.artist == groups[i].canonical && tr.artistName == groups[i].name
  {
    hide MergedSources, OwnsPresentAlbum;
    var g := groups[|groups| - 1];
    if Applies(g) {
      SourcesName(mid, g, |g.sources|, stamp, t);
      assert g.sources[..|g.sources|] == g.sources;
      MergedSourcesRedirects(mid, g, |g.sources|, stamp);
      var f := a => if a in Ids(g.sources[..|g.sources|]) then g.canonical else a;
      assert MergedSources(mid, g, |g.sources|, stamp).tracks[t].artist == f(mid.tracks[t].artist);
      hide Ids, IsSource;
    }
  }

  /** The track t after the run. */
  lemma TrackRow(lib: Library, ev: Evidence, groups: seq<Group>, stamp: int, t: int)
    requires UniqueMbids(lib) && Grouped(lib, ev, groups) && t in lib.tracks
    requires forall i :: 0 <= i < |groups| ==> HasArtists(lib, groups[i])
    ensures t in MergedAll(lib, groups, stamp).tracks
    ensures forall i :: HandedTo(groups, lib.tracks[t].artist, i) ==>
              MergedAll(lib, groups, stamp).tracks[t] ==
              lib.tracks[t].(artist := groups[i].canonical, artistName := groups[i].name, changeSeq := stamp)
    ensures (forall i :: !HandedTo(groups, lib.tracks[t].artist, i)) ==>
              var credited := !lib.tracks[t].missing && CreditHanded(groups, lib.trackCredits, t);
              MergedAll(lib, groups, stamp).tracks[t] == lib.tracks[t].(changeSeq := if credited then stamp else lib.tracks[t].changeSeq)
  {
    var was, end := lib.tracks[t], MergedAll(lib, groups, stamp);
    ConsolidationRedirects(lib, ev, groups, stamp);
    ConsolidationIsStamped(lib, groups, stamp);
    HandedTarget(lib, ev, groups, was.artist);
    GroupsName(lib, ev, groups, stamp, t);
    hide MergedAll, Planned, Target;
    var f := (a: int) => Target(groups, a);
    assert end.tracks[t] == was.(artist := f(was.artist), artistName := end.tracks[t].artistName, changeSeq := end.tracks[t].changeSeq);
    assert TrackStamped(lib, end, t, stamp);
    if !was.missing && CreditHanded(groups, lib.trackCredits, t) {
      var c, i :| c in lib.trackCredits && c.0 == t && HandedTo(groups, lib.trackCredits[c], i);
      HandedTarget(lib, ev, groups, lib.trackCredits[c]);
      assert end.trackCredits[c] == f(lib.trackCredits[c]);
      assert CreditsDiffer(lib.trackCredits, end.trackCredits, t);
    } else if forall i :: !HandedTo(groups, was.artist, i) {
      forall i | 0 <= i < |groups| && !groups[i].collides
        ensures TrackOutside(lib, groups[i], t)
      {
        assert !HandedTo(groups, was.artist, i);
        forall c | c in lib.trackCredits && c.0 == t && !was.missing
          ensures !IsSource(groups[i], lib.trackCredits[c])
        {
          assert !HandedTo(groups, lib.trackCredits[c], i);
        }
      }
      GroupsLeaveTrack(lib, groups, stamp, t);
    }
  }

  /** The credits after the run. */
  lemma CreditRows(lib: Library, ev: Evidence, groups: seq<Group>, stamp: int)
    requires UniqueMbids(lib) && Grouped(lib, ev, groups)
    requires forall i :: 0 <= i < |groups| ==> HasArtists(lib, groups[i])
    ensures CreditsHanded(groups, lib.albumCredits, MergedAll(lib, groups, stamp).albumCredits)
    ensures CreditsHanded(groups, lib.trackCredits, MergedAll(lib, groups, stamp).trackCredits)
  {
    var end := MergedAll(lib, groups, stamp);
    ConsolidationRedirects(lib, ev, groups, stamp);
    hide MergedAll, Planned, Target, CreditsHanded;
    var f := (a: int) => Target(groups, a);
    assert forall c :: c in lib.albumCredits ==> end.albumCredits[c] == f(lib.albumCredits[c]);
    assert forall c :: c in lib.trackCredits ==> end.trackCredits[c] == f(lib.trackCredits[c]);
    OneCredits(lib, ev, groups, lib.albumCredits, end.albumCredits);
    OneCredits(lib, ev, groups, lib.trackCredits, end.trackCredits);
  }

  lemma OneCredits(lib: Library, ev: Evidence, groups: seq<Group>, was: map<(int, int), int>, now: map<(int, int), int>)
    requires UniqueMbids(lib) && Grouped(lib, ev, groups)
    requires now.Keys == was.Keys && forall c :: c in was ==> now[c] == Target(groups, was[c])
    ensures CreditsHanded(groups, was, now)
  {
    assert forall a, i :: HandedTo(groups, a, i) ==> 0 <= i < |groups|;
    hide Target, Planned, HandedTo;
    forall c | c in was
      ensures forall i :: 0 <= i < |groups| && HandedTo(groups, was[c], i) ==> now[c] == groups[i].canonical
      ensures (forall i :: !HandedTo(groups, was[c], i)) ==> now[c] == was[c]
    {
      HandedTarget(lib, ev, groups, was[c]);
    }
  }

  /** Credits of merged artists name the artists they were merged into; all others are as before. */
  ghost predicate CreditsHanded(groups: seq<Group>, was: map<(int, int), int>, now: map<(int, int), int>) {
    && now.Keys == was.Keys
    && (forall c, i :: c in was && HandedTo(groups, was[c], i) ==> now[c] == groups[i].canonical)
    && (forall c :: c in was && (forall i :: !HandedTo(groups, was[c], i)) ==> now[c] == was[c])
  }

  lemma {:induction false} SourcesKeepArt(lib: Library, g: Group, n: nat, stamp: int, a: int)
    requires HasArtists(lib, g) && n <= |g.sources| && a in lib.artists && a != g.canonical
    ensures MergedSources(lib, g, n, stamp).artists[a].art == lib.artists[a].art
  {
    if n > 0 {
      SourcesKeepArt(lib, g, n - 1, stamp, a);
      hide MergedAlbum, MergedTrack, MovedCredits;
    }
  }

  lemma {:induction false} GroupsKeepArt(lib: Library, groups: seq<Group>, stamp: int, a: int)
    requires forall i :: 0 <= i < |groups| ==> HasArtists(lib, groups[i])
    requires a in lib.artists && forall i :: 0 <= i < |groups| ==> groups[i].canonical != a
    ensures MergedAll(lib, groups, stamp).artists[a].art == lib.artists[a].art
  {
    hide MergedSources, OwnsPresentAlbum;
    if groups != [] {
      var rest, g := groups[..|groups| - 1], groups[|groups| - 1];
      GroupsKeepArt(lib, rest, stamp, a);
      assert HasArtists(lib, g);
      if Applies(g) {
        SourcesKeepArt(MergedAll(lib, rest, stamp), g, |g.sources|, stamp, a);
      }
    }
  }

  /** `art` is the artist's own, or else the first that a source has. */
  ghost predicate FirstOf(own: Option<int>, sources: seq<Source>, art: Option<int>) {
    if own != None then art == own
    else if art == None then forall j :: 0 <= j < |sources| ==> sources[j].art == None
    else exists j :: 0 <= j < |sources| && sources[j].art == art && forall i :: 0 <= i < j ==> sources[i].art == None
  }

  lemma {:induction false} FirstArtIsFirst(own: Option<int>, sources: seq<Source>)
    ensures FirstOf(own, sources, FirstArt(own, sources))
  {
    if sources != [] {
      var rest := sources[..|sources| - 1];
      FirstArtIsFirst(own, rest);
      var before := FirstArt(own, rest);
      if own == None && before != None {
        var j :| 0 <= j < |rest| && rest[j].art == before && forall i :: 0 <= i < j ==> rest[i].art == None;
        assert sources[j].art == before && forall i :: 0 <= i < j ==> sources[i] == rest[i];
      } else if own == None {
        assert forall i :: 0 <= i < |rest| ==> sources[i] == rest[i];
      }
    }
  }

  /** The artist a after the run: merged away, merged into, or as it was. */
  lemma ArtistRow(lib: Library, ev: Evidence, groups: seq<Group>, stamp: int, a: int)
    requires UniqueMbids(lib) && Grouped(lib, ev, groups) && a in lib.artists
    requires forall i :: 0 <= i < |groups| ==> HasArtists(lib, groups[i])
    ensures a in MergedAll(lib, groups, stamp).artists
    ensures forall i :: HandedTo(groups, a, i) ==>
                          MergedAll(lib, groups, stamp).artists[a] == lib.artists[a].(missing := true, changeSeq := stamp)
    ensures forall i :: 0 <= i < |groups| && !groups[i].collides && groups[i].sources != [] && groups[i].canonical == a ==>
                          var end := MergedAll(lib, groups, stamp);
                          && FirstOf(lib.artists[a].art, groups[i].sources, end.artists[a].art)
                          && end.artists[a] == lib.artists[a].(art := end.artists[a].art, missing := !HasAlbum(end, a), changeSeq := stamp)
    ensures (forall i :: 0 <= i < |groups| && !groups[i].collides && groups[i].sources != [] ==>
               groups[i].canonical != a && !IsSource(groups[i], a)) ==> MergedAll(lib, groups, stamp).artists[a] == lib.artists[a]
  {
    hide MergedAll, Planned, OwnsPresentAlbum, UniqueMbids, FirstArt, FirstOf;
    forall i
      ensures 0 <= i < |groups| ==> (IsSource(groups[i], a) <==> a in Ids(groups[i].sources))
    {
    }
    hide Ids, IsSource;
    MergingKeepsArtists(lib, groups, stamp, a);
    forall i | HandedTo(groups, a, i)
      ensures MergedAll(lib, groups, stamp).artists[a] == lib.artists[a].(missing := true, changeSeq := stamp)
    {
      HandedRow(lib, ev, groups, stamp, i, a);
    }
    forall i | 0 <= i < |groups| && !groups[i].collides && groups[i].sources != [] && groups[i].canonical == a
      ensures var end := MergedAll(lib, groups, stamp);
              && FirstOf(lib.artists[a].art, groups[i].sources, end.artists[a].art)
              && end.artists[a] == lib.artists[a].(art := end.artists[a].art, missing := !HasAlbum(end, a), changeSeq := stamp)
    {
      CanonicalRow(lib, ev, groups, stamp, i);
    }
  }

  lemma HandedRow(lib: Library, ev: Evidence, groups: seq<Group>, stamp: int, i: nat, a: int)
    requires UniqueMbids(lib) && Grouped(lib, ev, groups) && a in lib.artists && HandedTo(groups, a, i)
    requires forall i :: 0 <= i < |groups| ==> HasArtists(lib, groups[i])
    ensures MergedAll(lib, groups, stamp).artists[a] == lib.artists[a].(missing := true, changeSeq := stamp)
  {
    assert a in Ids(groups[i].sources);
    hide MergedAll, Planned, OwnsPresentAlbum, UniqueMbids, FirstArt, InGroup, Ids, IsSource;
    EveryGroupDone(lib, ev, groups, i, stamp);
    MergingKeepsArtists(lib, groups, stamp, a);
    forall j | 0 <= j < |groups|
      ensures groups[j].canonical != a
    {
      NoCanonicalIsSource(lib, ev, groups, j, i);
    }
    GroupsKeepArt(lib, groups, stamp, a);
  }

  lemma CanonicalRow(lib: Library, ev: Evidence, groups: seq<Group>, stamp: int, i: nat)
    requires UniqueMbids(lib) && Grouped(lib, ev, groups) && i < |groups| && !groups[i].collides && groups[i].sources != []
    requires forall i :: 0 <= i < |groups| ==> HasArtists(lib, groups[i])
    ensures var end, a := MergedAll(lib, groups, stamp), groups[i].canonical;
            && FirstOf(lib.artists[a].art, groups[i].sources, end.artists[a].art)
            && end.artists[a] == lib.artists[a].(art := end.artists[a].art, missing := !HasAlbum(end, a), changeSeq := stamp)
  {
    var a := groups[i].canonical;
    FirstArtIsFirst(lib.artists[a].art, groups[i].sources);
    hide MergedAll, Planned, UniqueMbids, FirstArt, FirstOf, InGroup;
    EveryGroupDone(lib, ev, groups, i, stamp);
    MergingKeepsArtists(lib, groups, stamp, a);
  }
}
