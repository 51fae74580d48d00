/** Artwork and its stamps (internal/store/art_attachment.go, internal/store/library.go): a
    client sees an album's own art, a track's art or else its album's, and an artist's art or
    else that of its first present album with art. Attaching album art stamps every present row
    whose visible art changes; the propagation at the end of a scan does so only sometimes. */
module AlbumArt {
  import opened Common

  datatype Artist = Artist(art: Option<int>, missing: bool, changeSeq: int)

  /** `title` is the title's rank in the collation order. */
  datatype Album = Album(artist: int, year: Option<int>, title: int, art: Option<int>, missing: bool, changeSeq: int)

  /** `position` is the rank of (disc, index), with null before every number. */
  datatype Track = Track(album: int, position: int, art: Option<int>, missing: bool, changeSeq: int)

  datatype Library = Library(artists: map<int, Artist>, albums: map<int, Album>, tracks: map<int, Track>)

  // ---------------------------------------------------------------------
  // What clients see

  const NO_YEAR := 9999

  function YearKey(al: Album): int {
    if al.year.Some? then al.year.value else NO_YEAR
  }

  /** ORDER BY COALESCE(year, 9999), title, album_id. */
  predicate Before(x: Album, i: int, y: Album, j: int) {
    YearKey(x) < YearKey(y) || (YearKey(x) == YearKey(y) && (x.title < y.title || (x.title == y.title && i < j)))
  }

  predicate Lends(albums: map<int, Album>, artist: int, k: int) {
    k in albums && albums[k].artist == artist && albums[k].art.Some? && !albums[k].missing
  }

  /** Album k is the first of this artist's present albums with art. */
  ghost predicate First(albums: map<int, Album>, artist: int, k: int) {
    Lends(albums, artist, k) && forall j :: Lends(albums, artist, j) && j != k ==> Before(albums[k], k, albums[j], j)
  }

  ghost function ArtistArt(lib: Library, a: int): Option<int>
    requires a in lib.artists
  {
    if lib.artists[a].art.Some? then lib.artists[a].art
    else if k :| First(lib.albums, a, k) then lib.albums[k].art
    else None
  }

  function TrackArt(lib: Library, t: int): Option<int>
    requires t in lib.tracks
  {
    var tr := lib.tracks[t];
    if tr.art.Some? then tr.art else if tr.album in lib.albums then lib.albums[tr.album].art else None
  }

  /** The first album in columns: by year, those without one as of year 9999, then by title, then
      by id. */
  lemma FirstInRows(albums: map<int, Album>, artist: int, k: int)
    ensures First(albums, artist, k) <==>
            && k in albums && albums[k].artist == artist && albums[k].art != None && !albums[k].missing
            && forall j | j in albums && albums[j].artist == artist && albums[j].art != None && !albums[j].missing && j != k ::
                 var x := if albums[k].year == None then 9999 else albums[k].year.value;
                 var y := if albums[j].year == None then 9999 else albums[j].year.value;
                 x < y || (x == y && (albums[k].title < albums[j].title || (albums[k].title == albums[j].title && k < j)))
  {
    forall j
      ensures Lends(albums, artist, j) <==>
                j in albums && albums[j].artist == artist && albums[j].art != None && !albums[j].missing
    {
    }
  }

  lemma {:induction false} FirstIsUnique(albums: map<int, Album>, artist: int, j: int, k: int)
    requires First(albums, artist, j) && First(albums, artist, k)
    ensures j == k
  {
  }

  ghost predicate FirstAmong(albums: map<int, Album>, artist: int, ids: set<int>, k: int) {
    k in ids && Lends(albums, artist, k) && forall j :: j in ids && Lends(albums, artist, j) && j != k ==> Before(albums[k], k, albums[j], j)
  }

  /** Whoever has an album to borrow from has a first one. */
  lemma {:induction false} FirstExists(albums: map<int, Album>, artist: int, ids: set<int>, some: int) returns (k: int)
    requires some in ids && Lends(albums, artist, some)
    ensures FirstAmong(albums, artist, ids, k)
    decreases |ids|
  {
    var rest := ids - {some};
    if other :| other in rest && Lends(albums, artist, other) {
      var best := FirstExists(albums, artist, rest, other);
      k := if Before(albums[some], some, albums[best], best) then some else best;
      forall j | j in ids && Lends(albums, artist, j) && j != k
        ensures Before(albums[k], k, albums[j], j)
      {
        if j in rest && j != best {
          assert Before(albums[best], best, albums[j], j);
        }
      }
    } else {
      k := some;
      forall j | j in ids && Lends(albums, artist, j)
        ensures j == k
      {
        assert j !in rest;
      }
    }
  }

  lemma {:induction false} FirstOfAll(albums: map<int, Album>, artist: int, some: int)
    requires Lends(albums, artist, some)
    ensures exists k :: First(albums, artist, k)
  {
    var k := FirstExists(albums, artist, albums.Keys, some);
    assert First(albums, artist, k);
  }

  // ---------------------------------------------------------------------
  // Attaching album art

  function AlbumsWithArt(albums: map<int, Album>, id: int, art: int, stamp: int): map<int, Album>
    requires id in albums
  {
    albums[id := albums[id].(art := Some(art), changeSeq := stamp)]
  }

  function TracksStamped(tracks: map<int, Track>, id: int, stamp: int): map<int, Track> {
    map t | t in tracks ::
      if tracks[t].album == id && !tracks[t].missing && tracks[t].art.None? then tracks[t].(changeSeq := stamp) else tracks[t]
  }

  /** setAlbumArtTx. */
  ghost function WithAlbumArt(lib: Library, id: int, art: int, stamp: int): Library
    requires id in lib.albums && lib.albums[id].art.None?
  {
    var albums := AlbumsWithArt(lib.albums, id, art, stamp);
    var owner := lib.albums[id].artist;
    Library(
      map a | a in lib.artists ::
        if a == owner && !lib.artists[a].missing && lib.artists[a].art.None? && First(albums, owner, id) then
          lib.artists[a].(changeSeq := stamp)
        else lib.artists[a],
      albums,
      TracksStamped(lib.tracks, id, stamp))
  }

  /** Every present row of `was` whose visible art differs in `now` carries the stamp. */
  ghost predicate AlbumsTold(was: Library, now: Library, stamp: int) {
    forall k :: k in was.albums && k in now.albums && !now.albums[k].missing && now.albums[k].art != was.albums[k].art ==>
      now.albums[k].changeSeq == stamp
  }

  ghost predicate ArtistsTold(was: Library, now: Library, stamp: int) {
    forall a :: a in was.artists && a in now.artists && !now.artists[a].missing && ArtistArt(now, a) != ArtistArt(was, a) ==>
      now.artists[a].changeSeq == stamp
  }

  ghost predicate TracksTold(was: Library, now: Library, stamp: int) {
    forall t :: t in was.tracks && t in now.tracks && !now.tracks[t].missing && TrackArt(now, t) != TrackArt(was, t) ==>
      now.tracks[t].changeSeq == stamp
  }

  /** Attaching art to an album that does not come first leaves the first one first. */
  lemma {:induction false} FirstStays(albums: map<int, Album>, id: int, art: int, stamp: int, a: int, k: int)
    requires id in albums && albums[id].art.None?
    requires First(AlbumsWithArt(albums, id, art, stamp), a, k) && k != id
    ensures First(albums, a, k)
  {
    var after := AlbumsWithArt(albums, id, art, stamp);
    forall j | Lends(albums, a, j) && j != k
      ensures Before(albums[k], k, albums[j], j)
    {
      assert j != id && Lends(after, a, j);
    }
  }

  lemma {:induction false} ArtistArtMoves(lib: Library, id: int, art: int, stamp: int, a: int)
    requires id in lib.albums && lib.albums[id].art.None? && a in lib.artists
    ensures var n := WithAlbumArt(lib, id, art, stamp);
            ArtistArt(n, a) != ArtistArt(lib, a) ==> lib.artists[a].art.None? && First(n.albums, a, id)
  {
    var n := WithAlbumArt(lib, id, art, stamp);
    if lib.artists[a].art.None? && !First(n.albums, a, id) {
      if k :| First(n.albums, a, k) {
        FirstStays(lib.albums, id, art, stamp, a, k);
        forall j | First(lib.albums, a, j)
          ensures j == k
        {
          FirstIsUnique(lib.albums, a, j, k);
        }
        forall j | First(n.albums, a, j)
          ensures j == k
        {
          FirstIsUnique(n.albums, a, j, k);
        }
      } else {
        forall j
          ensures !First(lib.albums, a, j)
        {
          if First(lib.albums, a, j) {
            assert Lends(n.albums, a, j);
            FirstOfAll(n.albums, a, j);
          }
        }
      }
    }
  }

  /** Stamping is complete: after art is attached to an album, every present album, track or
      artist whose client-visible art differs from before carries the new sequence number. */
  lemma {:induction false} AttachStampsEveryChange(lib: Library, id: int, art: int, stamp: int)
    requires id in lib.albums && lib.albums[id].art.None?
    ensures var n := WithAlbumArt(lib, id, art, stamp);
            AlbumsTold(lib, n, stamp) && TracksTold(lib, n, stamp) && ArtistsTold(lib, n, stamp)
  {
    var n := WithAlbumArt(lib, id, art, stamp);
    forall a | a in lib.artists && !n.artists[a].missing && ArtistArt(n, a) != ArtistArt(lib, a)
      ensures n.artists[a].changeSeq == stamp
    {
      ArtistArtMoves(lib, id, art, stamp, a);
      assert Lends(n.albums, a, id);
    }
  }

  // ---------------------------------------------------------------------
  // Propagation at the end of a scan

  predicate Offers(tracks: map<int, Track>, album: int, t: int) {
    t in tracks && tracks[t].album == album && tracks[t].art.Some? && !tracks[t].missing
  }

  /** The album statement of finishScan: an album without art takes that of its first present
      track with art (any of them when positions tie), and is stamped. */
  ghost predicate AlbumPropagated(lib: Library, al: Album, n: Album, k: int, stamp: int) {
    if al.art.None? && exists t :: Offers(lib.tracks, k, t) then
      exists t :: Offers(lib.tracks, k, t) && n == al.(art := lib.tracks[t].art, changeSeq := stamp)
                  && forall u :: Offers(lib.tracks, k, u) ==> lib.tracks[t].position <= lib.tracks[u].position
    else n == al
  }

  /** The artist statement, over the albums as just updated. The order by year alone puts null
      years first and leaves ties open. */
  ghost predicate ArtistPropagated(albums: map<int, Album>, ar: Artist, n: Artist, a: int, stamp: int) {
    if ar.art.None? && exists k :: Lends(albums, a, k) then
      exists k :: Lends(albums, a, k) && n == ar.(art := albums[k].art, changeSeq := stamp)
    else n == ar
  }

  ghost predicate Propagated(lib: Library, n: Library, stamp: int) {
    && n.albums.Keys == lib.albums.Keys && n.artists.Keys == lib.artists.Keys && n.tracks == lib.tracks
    && (forall k :: k in lib.albums ==> AlbumPropagated(lib, lib.albums[k], n.albums[k], k, stamp))
    && (forall a :: a in lib.artists ==> ArtistPropagated(n.albums, lib.artists[a], n.artists[a], a, stamp))
  }

  /** Propagation in columns: whoever has art keeps its row; an artless album or artist with a
      present lender takes one lender's art and the stamp, an album that of its first track. */
  lemma {:induction false} PropagationInRows(lib: Library, n: Library, stamp: int)
    requires Propagated(lib, n, stamp)
    ensures n.tracks == lib.tracks && n.albums.Keys == lib.albums.Keys && n.artists.Keys == lib.artists.Keys
    ensures forall k :: k in lib.albums && lib.albums[k].art != None ==> n.albums[k] == lib.albums[k]
    ensures forall a :: a in lib.artists && lib.artists[a].art != None ==> n.artists[a] == lib.artists[a]
    ensures forall k :: k in lib.albums && lib.albums[k].art == None && (exists t :: Pictured(lib, k, t)) ==>
              exists u :: Pictured(lib, k, u) && n.albums[k] == lib.albums[k].(art := lib.tracks[u].art, changeSeq := stamp)
                          && forall t :: Pictured(lib, k, t) ==> lib.tracks[u].position <= lib.tracks[t].position
    ensures forall k :: k in lib.albums && lib.albums[k].art == None && (forall t :: !Pictured(lib, k, t)) ==> n.albums[k] == lib.albums[k]
    ensures forall a, k :: a in lib.artists && lib.artists[a].art == None && Showing(n, a, k) ==>
              && n.artists[a] == lib.artists[a].(art := n.artists[a].art, changeSeq := stamp)
              && exists j :: Showing(n, a, j) && n.artists[a].art == n.albums[j].art
    ensures forall a :: a in lib.artists && lib.artists[a].art == None && (forall k :: !Showing(n, a, k)) ==> n.artists[a] == lib.artists[a]
  {
    forall k, t
      ensures Offers(lib.tracks, k, t) <==> Pictured(lib, k, t)
    {
    }
    forall a, k
      ensures Lends(n.albums, a, k) <==> Showing(n, a, k)
    {
    }
    hide Offers, Lends, Pictured, Showing;
    forall k | k in lib.albums
      ensures AlbumPropagated(lib, lib.albums[k], n.albums[k], k, stamp)
    {
    }
    forall a | a in lib.artists
      ensures ArtistPropagated(n.albums, lib.artists[a], n.artists[a], a, stamp)
    {
    }
  }

  /** Track t is a present one of album k with art; album k a present one of artist a with art. */
  predicate Pictured(lib: Library, k: int, t: int) {
    t in lib.tracks && lib.tracks[t].album == k && !lib.tracks[t].missing && lib.tracks[t].art != None
  }

  predicate Showing(lib: Library, a: int, k: int) {
    k in lib.albums && lib.albums[k].artist == a && !lib.albums[k].missing && lib.albums[k].art != None
  }

  /** A present track without art of its own, not yet stamped, whose album takes art from
      another track. */
  ghost predicate LeftOut(lib: Library, t: int, stamp: int) {
    && t in lib.tracks && !lib.tracks[t].missing && lib.tracks[t].art.None? && lib.tracks[t].changeSeq != stamp
    && lib.tracks[t].album in lib.albums && lib.albums[lib.tracks[t].album].art.None?
    && exists u :: Offers(lib.tracks, lib.tracks[t].album, u)
  }

  lemma {:induction false} PropagationTellsArtists(lib: Library, n: Library, stamp: int, a: int)
    requires Propagated(lib, n, stamp) && a in lib.artists && ArtistArt(n, a) != ArtistArt(lib, a)
    ensures n.artists[a].changeSeq == stamp
  {
    assert ArtistPropagated(n.albums, lib.artists[a], n.artists[a], a, stamp);
    forall j
      ensures Lends(lib.albums, a, j) ==> Lends(n.albums, a, j)
    {
      if j in lib.albums {
        assert AlbumPropagated(lib, lib.albums[j], n.albums[j], j, stamp);
      }
    }
  }

  /** Propagation stamps every change of albums and artists; it stamps every change of tracks
      if and only if no track is left out. */
  lemma {:induction false} PropagationTellsTracksIff(lib: Library, n: Library, stamp: int)
    requires Propagated(lib, n, stamp)
    ensures AlbumsTold(lib, n, stamp) && ArtistsTold(lib, n, stamp)
    ensures TracksTold(lib, n, stamp) <==> forall t :: !LeftOut(lib, t, stamp)
  {
    forall a | a in lib.artists && ArtistArt(n, a) != ArtistArt(lib, a)
      ensures n.artists[a].changeSeq == stamp
    {
      PropagationTellsArtists(lib, n, stamp, a);
    }
    hide First;
    forall t | t in lib.tracks && !lib.tracks[t].missing
      ensures TrackArt(n, t) != TrackArt(lib, t) && lib.tracks[t].changeSeq != stamp <==> LeftOut(lib, t, stamp)
    {
      var k := lib.tracks[t].album;
      if k in lib.albums {
        assert AlbumPropagated(lib, lib.albums[k], n.albums[k], k, stamp);
      }
    }
  }

  /** An album without art, with one track that has art and one that has none. */
  function HalfPictured(art: Option<int>, changeSeq: int): Library {
    Library(map[], map[1 := Album(9, None, 0, art, false, changeSeq)],
            map[1 := Track(1, 1, Some(5), false, 7), 2 := Track(1, 2, None, false, 3)])
  }

  /** A scan that finds art in one track of an album without art: the other track shows the new
      art too, but its row keeps its old sequence number, so a client that polls for changes
      is never told. */
  lemma {:induction false} PropagationCanLoseTracks()
    ensures var lib, n := HalfPictured(None, 3), HalfPictured(Some(5), 7);
            Propagated(lib, n, 7) && TrackArt(lib, 2) == None && TrackArt(n, 2) == Some(5) && n.tracks[2].changeSeq == 3
  {
    hide First, Lends;
    var lib, n := HalfPictured(None, 3), HalfPictured(Some(5), 7);
    assert n.albums[1] == lib.albums[1].(art := lib.tracks[1].art, changeSeq := 7);
    assert AlbumPropagated(lib, lib.albums[1], n.albums[1], 1, 7);
  }

  // ---------------------------------------------------------------------
  // The tables

  class Artwork {
    var artists: map<int, Artist>
    var albums: map<int, Album>
    var tracks: map<int, Track>
    var counter: int

    ghost function View(): Library
      reads this
    {
      Library(artists, albums, tracks)
    }

    /** The subquery of artistArt: one pass, keeping the best album so far. */
    method FirstAlbumWithArt(artist: int) returns (first: Option<int>)
      ensures first.Some? ==> First(albums, artist, first.value)
      ensures first.None? ==> forall k :: !Lends(albums, artist, k)
    {
      var ids := Enumerate(albums.Keys);
      assert forall k :: k in Elements(ids) <==> k in albums;
      first := None;
      var i := 0;
      while i < |ids|
        invariant 0 <= i <= |ids|
        invariant first.None? ==> forall j :: 0 <= j < i ==> !Lends(albums, artist, ids[j])
        invariant first.Some? ==> Lends(albums, artist, first.value)
        invariant first.Some? ==> forall j :: 0 <= j < i && Lends(albums, artist, ids[j]) && ids[j] != first.value ==>
                    Before(albums[first.value], first.value, albums[ids[j]], ids[j])
      {
        var k := ids[i];
        if Lends(albums, artist, k) && (first.None? || Before(albums[k], k, albums[first.value], first.value)) {
          first := Some(k);
        }
        i := i + 1;
      }
      forall k | Lends(albums, artist, k)
        ensures exists j :: 0 <= j < |ids| && ids[j] == k
      {
        assert k in Elements(ids);
      }
    }

    /** setAlbumArtTx: false, and nothing written, unless the album exists without art. */
    method SetAlbumArt(id: int, art: int, stamp: int) returns (updated: bool)
      modifies this`artists, this`albums, this`tracks
      ensures updated <==> id in old(albums) && old(albums)[id].art.None?
      ensures View() == if updated then WithAlbumArt(old(View()), id, art, stamp) else old(View())
      ensures updated ==> albums == old(albums)[id := old(albums)[id].(art := Some(art), changeSeq := stamp)]
      ensures updated ==>
                && tracks.Keys == old(tracks).Keys
                && forall t :: t in tracks ==>
                     tracks[t] == old(tracks)[t].(changeSeq := if old(tracks)[t].album == id && !old(tracks)[t].missing && old(tracks)[t].art == None
                                                               then stamp else old(tracks)[t].changeSeq)
      ensures updated ==>
                && artists.Keys == old(artists).Keys
                && forall a :: a in artists ==>
                     artists[a] == old(artists)[a].(changeSeq := if a == albums[id].artist && !old(artists)[a].missing &&
                                                                    old(artists)[a].art == None && First(albums, a, id)
                                                                 then stamp else old(artists)[a].changeSeq)
    {
      updated := id in albums && albums[id].art.None?;
      if !updated {
        return;
      }
      var owner := albums[id].artist;
      albums := AlbumsWithArt(albums, id, art, stamp);
      tracks := TracksStamped(tracks, id, stamp);
      var first := FirstAlbumWithArt(owner);
      assert First(albums, owner, id) <==> first == Some(id) by {
        if First(albums, owner, id) && first.Some? {
          FirstIsUnique(albums, owner, id, first.value);
        }
      }
      if owner in artists && !artists[owner].missing && artists[owner].art.None? && first == Some(id) {
        artists := artists[owner := artists[owner].(changeSeq := stamp)];
      }
      assert artists == WithAlbumArt(old(View()), id, art, stamp).artists;
    }

    /** SetAlbumArtAtNextSequence: a sequence number is taken only for an album that gets art. */
    method SetAlbumArtAtNextSequence(id: int, art: int) returns (changed: bool)
      modifies this
      ensures changed <==> id in old(albums) && old(albums)[id].art.None?
      ensures counter == (if changed then old(counter) + 1 else old(counter))
      ensures View() == if changed then WithAlbumArt(old(View()), id, art, counter) else old(View())
      ensures changed ==> albums == old(albums)[id := old(albums)[id].(art := Some(art), changeSeq := counter)]
    {
      if id !in albums || albums[id].art.Some? {
        return false;
      }
      counter := counter + 1;
      changed := SetAlbumArt(id, art, counter);
    }
  }
}
