/** splitProfileConflictTx and applySplitAlbumPlanTx
    (internal/store/split_album_reconciliation.go): fold the fragments of a split album into
    the surviving album. Tables are maps from primary key to row; ids are ordered. */
module SplitAlbumMerge {
  import opened Common

  /** A row of loves or ratings: what a profile thinks of a ref. */
  datatype Opinion = Opinion(profile: int, ref: int, value: int)

  datatype Recommendation = Recommendation(sender: int, recipient: int, ref: int, kind: int, note: Option<string>, seen: bool)

  datatype TrackRow = TrackRow(album: int, stamp: int)

  datatype AlbumRow = AlbumRow(artist: int, art: Option<int>, missing: bool, stamp: int)

  datatype ArtistRow = ArtistRow(missing: bool, stamp: int)

  datatype Plan = Plan(fragments: set<int>, artists: set<int>, art: Option<int>)

  type Opinions = map<int, Opinion>

  /** UNIQUE(profile, ref). */
  ghost predicate Unique(table: Opinions) {
    forall a, b :: a in table && b in table && table[a].profile == table[b].profile && table[a].ref == table[b].ref ==> a == b
  }

  /** Some profile holds two different opinions among refs. */
  predicate Conflict(table: Opinions, refs: set<int>) {
    exists a, b :: a in table && b in table && table[a].ref in refs && table[b].ref in refs &&
                   table[a].profile == table[b].profile && table[a].value != table[b].value
  }

  /** One of the two grouped queries of splitProfileConflictTx: is there a profile with a second
      distinct value? One scan that remembers each profile's first value. */
  method ProfilesDisagree(table: Opinions, refs: set<int>) returns (conflict: bool)
    ensures conflict <==> Conflict(table, refs)
    ensures conflict <==> exists a, b :: a in table && b in table && table[a].ref in refs && table[b].ref in refs &&
                                          table[a].profile == table[b].profile && table[a].value != table[b].value
  {
    var ids := Enumerate(table.Keys);
    assert forall x :: x in table <==> x in Elements(ids);
    var seen: map<int, int> := map[];
    var i := 0;
    while i < |ids|
      invariant 0 <= i <= |ids|
      invariant forall k :: 0 <= k < i && table[ids[k]].ref in refs ==>
                  table[ids[k]].profile in seen && seen[table[ids[k]].profile] == table[ids[k]].value
      invariant forall p :: p in seen ==> exists x :: x in table && table[x].ref in refs && table[x].profile == p && table[x].value == seen[p]
    {
      var row := table[ids[i]];
      if row.ref in refs {
        if row.profile in seen && seen[row.profile] != row.value {
          return true;
        }
        seen := seen[row.profile := row.value];
        assert ids[i] in table;
      }
      i := i + 1;
    }
    conflict := false;
  }

  /** splitProfileConflictTx: loves first, then ratings. */
  method SplitProfileConflict(loves: Opinions, ratings: Opinions, anchor: int, fragments: set<int>) returns (conflict: bool)
    ensures conflict <==> Conflict(loves, {anchor} + fragments) || Conflict(ratings, {anchor} + fragments)
  {
    conflict := ProfilesDisagree(loves, {anchor} + fragments);
    if !conflict {
      conflict := ProfilesDisagree(ratings, {anchor} + fragments);
    }
  }

  /** The profile's lowest row id among refs. */
  predicate IsFirst(table: Opinions, refs: set<int>, id: int)
    requires id in table
  {
    forall x :: x in table && table[x].ref in refs && table[x].profile == table[id].profile ==> id <= x
  }

  /** DELETE ... WHERE ref IN refs AND id NOT IN (SELECT min(id) ... GROUP BY profile_id). */
  function Collapse(table: Opinions, refs: set<int>): Opinions {
    map id | id in table && (table[id].ref in refs ==> IsFirst(table, refs, id)) :: table[id]
  }

  /** UPDATE ... SET ref = anchor WHERE ref IN fragments. */
  function Redirect(table: Opinions, anchor: int, fragments: set<int>): Opinions {
    map id | id in table :: if table[id].ref in fragments then table[id].(ref := anchor) else table[id]
  }

  function Merged(table: Opinions, anchor: int, fragments: set<int>): Opinions {
    Redirect(Collapse(table, {anchor} + fragments), anchor, fragments)
  }

  /** Each opinion on the survivor or a fragment has one surviving row, of the same profile. */
  lemma KeptRow(table: Opinions, anchor: int, fragments: set<int>, id: int) returns (kept: int)
    requires id in table && table[id].ref in {anchor} + fragments
    ensures kept in table && table[kept].ref in {anchor} + fragments && table[kept].profile == table[id].profile
    ensures kept in Merged(table, anchor, fragments)
    ensures Merged(table, anchor, fragments)[kept] == table[kept].(ref := anchor)
  {
    var refs := {anchor} + fragments;
    var mine := set x | x in table && table[x].ref in refs && table[x].profile == table[id].profile;
    assert id in mine;
    kept := Lowest(mine);
    assert kept in mine;
    assert IsFirst(table, refs, kept) by {
      forall x | x in table && table[x].ref in refs && table[x].profile == table[kept].profile ensures kept <= x {
        assert x in mine;
      }
    }
  }

  /** Profiles with an opinion among refs. */
  function Profiles(table: Opinions, refs: set<int>): set<int> {
    set id | id in table && table[id].ref in refs :: table[id].profile
  }

  /** SELECT min(id) ... WHERE ref IN refs GROUP BY profile_id. */
  method FirstRows(table: Opinions, refs: set<int>) returns (first: map<int, int>)
    ensures forall x :: x in table && table[x].ref in refs ==> table[x].profile in first && first[table[x].profile] <= x
    ensures forall p :: p in first ==> first[p] in table && table[first[p]].ref in refs && table[first[p]].profile == p
  {
    var ids := Enumerate(table.Keys);
    assert forall x :: x in table <==> x in Elements(ids);
    first := map[];
    var i := 0;
    while i < |ids|
      invariant 0 <= i <= |ids|
      invariant forall k :: 0 <= k < i && table[ids[k]].ref in refs ==> table[ids[k]].profile in first && first[table[ids[k]].profile] <= ids[k]
      invariant forall p :: p in first ==> first[p] in table && table[first[p]].ref in refs && table[first[p]].profile == p
    {
      var row := table[ids[i]];
      assert ids[i] in table;
      if row.ref in refs && (row.profile !in first || ids[i] < first[row.profile]) {
        first := first[row.profile := ids[i]];
      }
      i := i + 1;
    }
  }

  /** The two statements that fold the opinions of one table: delete all but each profile's first
      row, then point what is left to the survivor. */
  method MergeOpinions(table: Opinions, anchor: int, fragments: set<int>) returns (merged: Opinions)
    ensures merged == Merged(table, anchor, fragments)
  {
    var refs := {anchor} + fragments;
    var first := FirstRows(table, refs);
    var kept := map id | id in table && (table[id].ref in refs ==> first[table[id].profile] == id) :: table[id];
    assert kept == Collapse(table, refs);
    merged := map id | id in kept :: if kept[id].ref in fragments then kept[id].(ref := anchor) else kept[id];
  }

  lemma MergedIsUnique(table: Opinions, anchor: int, fragments: set<int>)
    requires Unique(table) && anchor !in fragments
    ensures Unique(Merged(table, anchor, fragments))
  {
    var m, refs := Merged(table, anchor, fragments), {anchor} + fragments;
    forall a, b | a in m && b in m && m[a].profile == m[b].profile && m[a].ref == m[b].ref
      ensures a == b
    {
      if m[a].ref == anchor {
        assert IsFirst(table, refs, a) && IsFirst(table, refs, b);
      }
    }
  }

  /** Exactly one opinion per profile remains on the survivor, the first of the rows that
      profile had; the table stays unique; every other ref is untouched. */
  lemma MergeKeepsOpinions(table: Opinions, anchor: int, fragments: set<int>)
    requires Unique(table) && anchor !in fragments
    ensures var m, refs := Merged(table, anchor, fragments), {anchor} + fragments;
      && (forall a, b :: a in m && b in m && m[a].profile == m[b].profile && m[a].ref == m[b].ref ==> a == b)
      && Profiles(m, {anchor}) == Profiles(table, refs)
      && (forall id :: id in table && table[id].ref !in refs ==> id in m && m[id] == table[id])
      && (forall id :: id in table && table[id].ref in refs ==>
            (id in m <==> forall x :: x in table && table[x].ref in refs && table[x].profile == table[id].profile ==> id <= x))
      && (forall id :: id in m ==>
            id in table && m[id] == if table[id].ref in refs then table[id].(ref := anchor) else table[id])
  {
    var m, refs := Merged(table, anchor, fragments), {anchor} + fragments;
    MergedIsUnique(table, anchor, fragments);
    forall p | p in Profiles(table, refs) ensures p in Profiles(m, {anchor}) {
      var id :| id in table && table[id].ref in refs && table[id].profile == p;
      var kept := KeptRow(table, anchor, fragments, id);
      assert m[kept].ref == anchor && m[kept].profile == p;
    }
  }

  /** The conflict check is exact: merging preserves the value of every opinion on the
      survivor and the fragments if and only if no profile disagrees with itself. */
  lemma ConflictCheckIsExact(table: Opinions, anchor: int, fragments: set<int>)
    requires Unique(table) && anchor !in fragments
    ensures !Conflict(table, {anchor} + fragments) <==>
            forall id :: id in table && table[id].ref in {anchor} + fragments ==>
              Opinion(table[id].profile, anchor, table[id].value) in Merged(table, anchor, fragments).Values
  {
    var m, refs := Merged(table, anchor, fragments), {anchor} + fragments;
    if !Conflict(table, refs) {
      forall id | id in table && table[id].ref in refs
        ensures Opinion(table[id].profile, anchor, table[id].value) in m.Values
      {
        var kept := KeptRow(table, anchor, fragments, id);
        assert table[kept].value == table[id].value;
        assert m[kept] in m.Values;
      }
    } else {
      var a, b :| a in table && b in table && table[a].ref in refs && table[b].ref in refs &&
                  table[a].profile == table[b].profile && table[a].value != table[b].value;
      MergedIsUnique(table, anchor, fragments);
      var kept := KeptRow(table, anchor, fragments, a);
      var lost := if table[kept].value == table[a].value then b else a;
      forall x | x in m ensures m[x] != Opinion(table[lost].profile, anchor, table[lost].value) {
        assert m[x].profile == m[kept].profile && m[x].ref == m[kept].ref ==> x == kept;
      }
    }
  }

  // ---------------------------------------------------------------------
  // Recommendations

  type Recommendations = map<int, Recommendation>

  /** The grouping of the collapse statement: an absent note counts as an empty one. */
  function Grouping(r: Recommendation): Recommendation {
    r.(note := if r.note.None? then Some("") else r.note)
  }

  function Resent(table: Recommendations, anchor: int, fragments: set<int>): Recommendations {
    map id | id in table :: if table[id].ref in fragments then table[id].(ref := anchor) else table[id]
  }

  function Deduplicated(table: Recommendations, anchor: int): Recommendations {
    map id | id in table &&
             (table[id].ref == anchor ==>
                forall x :: x in table && Grouping(table[x]) == Grouping(table[id]) ==> id <= x) :: table[id]
  }

  /** SELECT min(rowid) ... GROUP BY all that makes a recommendation. */
  method FirstOfGroups(table: Recommendations) returns (first: map<Recommendation, int>)
    ensures forall x :: x in table ==> Grouping(table[x]) in first && first[Grouping(table[x])] <= x
    ensures forall g :: g in first ==> first[g] in table && Grouping(table[first[g]]) == g
  {
    var ids := Enumerate(table.Keys);
    assert forall x :: x in table <==> x in Elements(ids);
    hide Grouping;
    first := map[];
    var i := 0;
    while i < |ids|
      invariant 0 <= i <= |ids|
      invariant forall k :: 0 <= k < i ==> Grouping(table[ids[k]]) in first && first[Grouping(table[ids[k]])] <= ids[k]
      invariant forall g :: g in first ==> first[g] in table && Grouping(table[first[g]]) == g
    {
      var g := Grouping(table[ids[i]]);
      assert ids[i] in table;
      if g !in first || ids[i] < first[g] {
        first := first[g := ids[i]];
      }
      i := i + 1;
    }
  }

  /** The two statements that fold recommendations: point all to the survivor, then delete all but
      the first row of each group. */
  method MergeRecommendations(table: Recommendations, anchor: int, fragments: set<int>) returns (merged: Recommendations)
    ensures merged == Deduplicated(Resent(table, anchor, fragments), anchor)
  {
    var sent := map id | id in table :: if table[id].ref in fragments then table[id].(ref := anchor) else table[id];
    assert sent == Resent(table, anchor, fragments);
    hide Grouping, Resent;
    var first := FirstOfGroups(sent);
    merged := map id | id in sent && (sent[id].ref == anchor ==> first[Grouping(sent[id])] == id) :: sent[id];
    assert merged == Deduplicated(sent, anchor);
  }

  /** Two recommendations say the same, whichever fragment each is about. */
  predicate SaysTheSame(r: Recommendation, s: Recommendation) {
    && r.sender == s.sender && r.recipient == s.recipient && r.kind == s.kind && r.seen == s.seen
    && (r.note == s.note || (r.note == None && s.note == Some("")) || (r.note == Some("") && s.note == None))
  }

  lemma GroupingAgrees(r: Recommendation, s: Recommendation, anchor: int)
    ensures Grouping(r.(ref := anchor)) == Grouping(s.(ref := anchor)) <==> SaysTheSame(r, s)
  {
  }

  /** Every distinct recommendation of the survivor or a fragment is kept exactly once on
      the survivor, in its first row; recommendations of anything else are untouched. */
  lemma MergeKeepsRecommendations(table: Recommendations, anchor: int, fragments: set<int>)
    requires anchor !in fragments
    ensures var m, refs := Deduplicated(Resent(table, anchor, fragments), anchor), {anchor} + fragments;
      && (forall id :: id in table && table[id].ref in refs ==>
            exists kept :: kept in m && m[kept].ref == anchor && SaysTheSame(m[kept], table[id]))
      && (forall id :: id in table && table[id].ref in refs ==>
            (id in m <==> forall x :: x in table && table[x].ref in refs && SaysTheSame(table[x], table[id]) ==> id <= x))
      && (forall id :: id in m ==>
            id in table && m[id] == if table[id].ref in fragments then table[id].(ref := anchor) else table[id])
      && (forall id :: id in table && table[id].ref !in refs ==> id in m)
  {
    var sent, refs := Resent(table, anchor, fragments), {anchor} + fragments;
    var m := Deduplicated(sent, anchor);
    forall x, y | x in table && y in table && table[x].ref in refs && table[y].ref in refs
      ensures Grouping(sent[x]) == Grouping(sent[y]) <==> SaysTheSame(table[x], table[y])
      ensures sent[x].ref == anchor && SaysTheSame(sent[x], table[x])
    {
      GroupingAgrees(table[x], table[y], anchor);
    }
    forall x, y | x in table && y in table && table[x].ref in refs && table[y].ref !in refs
      ensures Grouping(sent[x]) != Grouping(sent[y])
    {
    }
    hide Grouping, SaysTheSame;
    forall id | id in table && table[id].ref in refs
      ensures id in m <==> forall x :: x in table && table[x].ref in refs && SaysTheSame(table[x], table[id]) ==> id <= x
    {
    }
    forall id | id in table && table[id].ref in refs
      ensures exists kept :: kept in m && m[kept].ref == anchor && SaysTheSame(m[kept], table[id])
    {
      var kept := FirstToSay(table, refs, id);
      SayingIsShared(table[kept], table[id], anchor);
    }
  }

  lemma SayingIsShared(r: Recommendation, s: Recommendation, anchor: int)
    requires SaysTheSame(r, s)
    ensures SaysTheSame(r.(ref := anchor), s)
  {
  }

  lemma FirstToSay(table: Recommendations, refs: set<int>, id: int) returns (first: int)
    requires id in table && table[id].ref in refs
    ensures first in table && table[first].ref in refs && SaysTheSame(table[first], table[id])
    ensures forall x :: x in table && table[x].ref in refs && SaysTheSame(table[x], table[first]) ==> first <= x
  {
    var same := set x | x in table && table[x].ref in refs && SaysTheSame(table[x], table[id]);
    assert id in same;
    first := Lowest(same);
    assert first in same;
    forall x | x in table && table[x].ref in refs && SaysTheSame(table[x], table[first])
      ensures first <= x
    {
      assert x in same;
    }
  }

  // ---------------------------------------------------------------------
  // The transaction

  class Tables {
    var tracks: map<int, TrackRow>
    var albums: map<int, AlbumRow>
    var artists: map<int, ArtistRow>
    var loves: Opinions
    var ratings: Opinions
    var recommendations: Recommendations
    var candidates: map<int, seq<int>>
    var matches: map<int, int>

    method MoveTracks(anchor: int, fragments: set<int>, stamp: int)
      modifies this`tracks
      ensures tracks.Keys == old(tracks).Keys
      ensures forall t :: t in tracks ==>
                tracks[t] == if old(tracks)[t].album in {anchor} + fragments then TrackRow(anchor, stamp) else old(tracks)[t]
    {
      tracks := map t | t in tracks :: if tracks[t].album in fragments then TrackRow(anchor, stamp) else tracks[t];
      tracks := map t | t in tracks :: if tracks[t].album == anchor then tracks[t].(stamp := stamp) else tracks[t];
    }

    method MergeProfileData(anchor: int, fragments: set<int>)
      modifies this`loves, this`ratings, this`recommendations, this`candidates, this`matches
      ensures loves == Merged(old(loves), anchor, fragments)
      ensures ratings == Merged(old(ratings), anchor, fragments)
      ensures recommendations == Deduplicated(Resent(old(recommendations), anchor, fragments), anchor)
      ensures candidates == old(candidates) - fragments && matches == old(matches) - fragments
    {
      loves := MergeOpinions(loves, anchor, fragments);
      ratings := MergeOpinions(ratings, anchor, fragments);
      recommendations := MergeRecommendations(recommendations, anchor, fragments);
      candidates := candidates - fragments;
      matches := matches - fragments;
    }

    method RetireFragments(anchor: int, fragments: set<int>, stamp: int)
      modifies this`albums
      requires anchor !in fragments
      ensures albums.Keys == old(albums).Keys
      ensures forall a :: a in albums ==>
                albums[a] == if a in fragments then old(albums)[a].(missing := true, stamp := stamp)
                             else if a == anchor then old(albums)[a].(stamp := stamp)
                             else old(albums)[a]
    {
      albums := map a | a in albums :: if a in fragments then albums[a].(missing := true, stamp := stamp) else albums[a];
      albums := map a | a in albums :: if a == anchor then albums[a].(stamp := stamp) else albums[a];
    }

    /** An artist is missing when it owns no present album. */
    method RefreshOwners(owners: set<int>, stamp: int)
      modifies this`artists
      ensures artists.Keys == old(artists).Keys
      ensures forall r :: r in artists ==>
                artists[r] == if r in owners then ArtistRow(forall a :: a in albums && albums[a].artist == r ==> albums[a].missing, stamp)
                              else old(artists)[r]
    {
      var todo := owners;
      while todo != {}
        invariant todo <= owners
        invariant artists.Keys == old(artists).Keys
        invariant forall r :: r in artists ==>
                    artists[r] == if r in owners - todo then ArtistRow(Unowned(albums, r), stamp) else old(artists)[r]
      {
        SomeId(todo);
        var artist :| artist in todo;
        if artist in artists {
          artists := artists[artist := ArtistRow(Unowned(albums, artist), stamp)];
        }
        todo := todo - {artist};
      }
    }

    /** applySplitAlbumPlanTx, statement by statement. */
    method ApplySplitAlbumPlan(anchor: int, plan: Plan, stamp: int)
      requires anchor !in plan.fragments
      modifies this
      ensures tracks.Keys == old(tracks).Keys
      ensures forall t :: t in tracks ==>
                tracks[t] == if old(tracks)[t].album in {anchor} + plan.fragments then TrackRow(anchor, stamp) else old(tracks)[t]
      ensures albums.Keys == old(albums).Keys
      ensures forall a :: a in albums ==>
                albums[a] == if a in plan.fragments then old(albums)[a].(missing := true, stamp := stamp)
                             else if a == anchor then
                               old(albums)[a].(stamp := stamp,
                                               art := if old(albums)[a].art.None? then plan.art else old(albums)[a].art)
                             else old(albums)[a]
      ensures loves == Merged(old(loves), anchor, plan.fragments)
      ensures ratings == Merged(old(ratings), anchor, plan.fragments)
      ensures recommendations == Deduplicated(Resent(old(recommendations), anchor, plan.fragments), anchor)
      ensures candidates == old(candidates) - plan.fragments && matches == old(matches) - plan.fragments
      ensures artists.Keys == old(artists).Keys
      ensures forall r :: r in artists ==>
                artists[r] == if r in plan.artists then ArtistRow(forall a :: a in albums && albums[a].artist == r ==> albums[a].missing, stamp)
                              else old(artists)[r]
    {
      MoveTracks(anchor, plan.fragments, stamp);
      if plan.art.Some? {
        albums := map a | a in albums ::
          if a == anchor && albums[a].art.None? then albums[a].(art := plan.art) else albums[a];
      }
      MergeProfileData(anchor, plan.fragments);
      RetireFragments(anchor, plan.fragments, stamp);
      RefreshOwners(plan.artists, stamp);
    }
  }

  predicate Unowned(albums: map<int, AlbumRow>, artist: int) {
    forall a :: a in albums && albums[a].artist == artist ==> albums[a].missing
  }

  /** After a merge guarded by the conflict check, profile data is conserved: every profile
      with an opinion on the survivor or a fragment has exactly one on the survivor, with
      the same value, in loves and in ratings alike. */
  lemma GuardedMergeConserves(loves: Opinions, ratings: Opinions, anchor: int, fragments: set<int>)
    requires Unique(loves) && Unique(ratings) && anchor !in fragments
    requires !Conflict(loves, {anchor} + fragments) && !Conflict(ratings, {anchor} + fragments)
    ensures OneEach(loves, Merged(loves, anchor, fragments), anchor, {anchor} + fragments)
    ensures OneEach(ratings, Merged(ratings, anchor, fragments), anchor, {anchor} + fragments)
  {
    OneOpinionEach(loves, anchor, fragments);
    OneOpinionEach(ratings, anchor, fragments);
  }

  ghost predicate OneEach(before: Opinions, after: Opinions, anchor: int, refs: set<int>) {
    forall id :: id in before && before[id].ref in refs ==>
      exists kept :: kept in after && after[kept] == Opinion(before[id].profile, anchor, before[id].value) &&
                     forall x :: x in after && after[x].profile == before[id].profile && after[x].ref in refs ==> x == kept
  }

  lemma OneOpinionEach(table: Opinions, anchor: int, fragments: set<int>)
    requires Unique(table) && anchor !in fragments && !Conflict(table, {anchor} + fragments)
    ensures OneEach(table, Merged(table, anchor, fragments), anchor, {anchor} + fragments)
  {
    var m, refs := Merged(table, anchor, fragments), {anchor} + fragments;
    MergeKeepsOpinions(table, anchor, fragments);
    forall id | id in table && table[id].ref in refs
      ensures exists kept :: kept in m && m[kept] == Opinion(table[id].profile, anchor, table[id].value) &&
                             forall x :: x in m && m[x].profile == table[id].profile && m[x].ref in refs ==> x == kept
    {
      var kept := KeptRow(table, anchor, fragments, id);
      assert table[kept].value == table[id].value;
    }
  }
}
