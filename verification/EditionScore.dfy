/** Scoring a MusicBrainz release against local files (scoreRelease and its evidence,
    internal/mbresolver/resolver.go). Normalized titles and names are numbers, equal exactly
    when the normalized strings are. */
module EditionScore {
  import opened Common

  datatype LocalTrack = LocalTrack(disc: int, index: int, title: int, duration: int)

  /** `artists` holds the normalized names, `artistIds` the non-empty MusicBrainz ids of the
      album's credits. */
  datatype Local = Local(title: int, artists: set<int>, artistIds: set<string>, year: int, trackCount: int, tracks: seq<LocalTrack>)

  datatype CandidateTrack = CandidateTrack(position: int, recording: string, title: int, length: int)

  datatype Medium = Medium(position: int, trackCount: int, tracks: seq<CandidateTrack>)

  datatype Credit = Credit(name: int, artistId: string)

  /** `year` is the year its date starts with, if it has one. */
  datatype Release = Release(id: string, title: int, year: Option<int>, credits: seq<Credit>, group: string, media: seq<Medium>)

  datatype Evidence = Evidence(title: bool, artist: bool, year: bool, trackCount: bool, positions: int, titles: int, durations: int)

  /** A candidate track with the normalized disc it is on. */
  datatype Slot = Slot(disc: int, track: CandidateTrack)

  datatype Kind = Positions | Titles | Durations

  predicate Aligned(s: Slot, lt: LocalTrack) {
    DiscNumber(lt.disc) == s.disc && lt.index == s.track.position
  }

  predicate Hit(kind: Kind, s: Slot, lt: LocalTrack) {
    && Aligned(s, lt)
    && match kind
       case Positions => true
       case Titles => lt.title == s.track.title
       case Durations => DurationClose(lt.duration, s.track.length)
  }

  function SlotsOf(m: Medium): seq<Slot> {
    seq(|m.tracks|, i requires 0 <= i < |m.tracks| => Slot(DiscNumber(m.position), m.tracks[i]))
  }

  /** Every candidate track, medium by medium. */
  function Slots(media: seq<Medium>): seq<Slot> {
    if media == [] then [] else Slots(media[..|media| - 1]) + SlotsOf(media[|media| - 1])
  }

  /** The number of tracks a release lists or declares. */
  function Total(media: seq<Medium>): int {
    if media == [] then 0
    else
      var m := media[|media| - 1];
      Total(media[..|media| - 1]) + if m.tracks == [] then m.trackCount else |m.tracks|
  }

  function Bit(b: bool): nat {
    if b then 1 else 0
  }

  /** Hits of one candidate track. */
  function Row(kind: Kind, s: Slot, locals: seq<LocalTrack>): nat {
    if locals == [] then 0 else Row(kind, s, locals[..|locals| - 1]) + Bit(Hit(kind, s, locals[|locals| - 1]))
  }

  function Hits(kind: Kind, slots: seq<Slot>, locals: seq<LocalTrack>): nat {
    if slots == [] then 0 else Hits(kind, slots[..|slots| - 1], locals) + Row(kind, slots[|slots| - 1], locals)
  }

  predicate ArtistMatches(local: Local, r: Release) {
    exists i :: 0 <= i < |r.credits| && CreditMatches(local, r.credits[i])
  }

  predicate CreditMatches(local: Local, c: Credit) {
    c.name in local.artists || c.artistId in local.artistIds
  }

  function EvidenceOf(local: Local, r: Release): Evidence {
    var slots := Slots(r.media);
    var counted := local.trackCount > 0;
    Evidence(local.title == r.title, ArtistMatches(local, r), local.year > 0 && r.year == Some(local.year),
             counted && Total(r.media) == local.trackCount,
             if counted then Hits(Positions, slots, local.tracks) else 0,
             if counted then Hits(Titles, slots, local.tracks) else 0,
             if counted then Hits(Durations, slots, local.tracks) else 0)
  }

  /** The score, from the evidence. */
  function Weighed(local: Local, e: Evidence): real {
    (if e.title then 45.0 else 0.0) + (if e.artist then 25.0 else 0.0) + (if e.year then 10.0 else 0.0)
    + (if e.trackCount then 10.0 else 0.0)
    + (if local.trackCount > 0 then 10.0 * e.durations as real / local.trackCount as real else 0.0)
  }

  function Score(local: Local, r: Release): real {
    Weighed(local, EvidenceOf(local, r))
  }

  // ---------------------------------------------------------------------
  // The score in columns

  /** The tracks listed before medium i. */
  function Offset(media: seq<Medium>, i: nat): nat
    requires i <= |media|
  {
    if i == 0 then 0 else Offset(media, i - 1) + |media[i - 1].tracks|
  }

  /** Track k of medium i in the one list of all tracks; a medium without a position is the first. */
  lemma {:induction false} SlotAtOffset(media: seq<Medium>, i: nat, k: nat)
    requires i < |media| && k < |media[i].tracks|
    ensures Offset(media, i) + k < |Slots(media)| == Offset(media, |media|)
    ensures Slots(media)[Offset(media, i) + k] == Slot(if media[i].position <= 0 then 1 else media[i].position, media[i].tracks[k])
  {
    SlotsLength(media, |media|);
    SlotsLength(media, i);
    SlotsLength(media, i + 1);
    assert media[..|media|] == media && media[..i + 1][..i] == media[..i];
    assert Slots(media[..i + 1]) == Slots(media[..i]) + SlotsOf(media[i]);
    hide SlotsOf, Slots, DiscNumber;
    SlotsPrefix(media, i + 1);
    SlotAt(media[i], k);
    assert Slots(media)[Offset(media, i) + k] == Slots(media[..i + 1])[Offset(media, i) + k];
  }

  lemma {:induction false} SlotsLength(media: seq<Medium>, n: nat)
    requires n <= |media|
    ensures |Slots(media[..n])| == Offset(media, n)
  {
    if n > 0 {
      SlotsLength(media, n - 1);
      assert media[..n][..n - 1] == media[..n - 1];
    }
  }

  lemma {:induction false} SlotsPrefix(media: seq<Medium>, n: nat)
    requires n <= |media|
    ensures |Slots(media[..n])| <= |Slots(media)| && Slots(media[..n]) == Slots(media)[..|Slots(media[..n])|]
    decreases |media| - n
  {
    if n < |media| {
      SlotsPrefix(media, n + 1);
      assert media[..n + 1][..n] == media[..n];
    } else {
      assert media[..n] == media;
    }
  }

  /** Candidate track i and local track j are a hit: at one position, with one title or close
      durations if that is asked. */
  predicate Meets(kind: Kind, slots: seq<Slot>, locals: seq<LocalTrack>, i: int, j: int)
    requires 0 <= i < |slots| && 0 <= j < |locals|
  {
    var c, l := slots[i].track, locals[j];
    && slots[i].disc == (if l.disc <= 0 then 1 else l.disc) && c.position == l.index
    && (kind == Titles ==> c.title == l.title)
    && (kind == Durations ==> c.length == 0 || l.duration == 0 || -3000 < c.length - l.duration < 3000)
  }

  function Pairs(kind: Kind, slots: seq<Slot>, locals: seq<LocalTrack>, n: nat, k: nat): set<(int, int)>
    requires n <= |slots| && k <= |locals|
  {
    set i, j | 0 <= i < n && 0 <= j < k && Meets(kind, slots, locals, i, j) :: (i, j)
  }

  /** The hits counted by the loops are the pairs of tracks that meet. */
  lemma {:induction false} HitsArePairs(kind: Kind, slots: seq<Slot>, locals: seq<LocalTrack>, n: nat)
    requires n <= |slots|
    ensures |Pairs(kind, slots, locals, n, |locals|)| == Hits(kind, slots[..n], locals)
  {
    if n > 0 {
      hide Meets, Row;
      HitsArePairs(kind, slots, locals, n - 1);
      assert slots[..n][..n - 1] == slots[..n - 1];
      RowIsPairs(kind, slots, locals, n - 1, |locals|);
      assert locals[..|locals|] == locals;
      PairsGrow(kind, slots, locals, n - 1);
    } else {
      assert Pairs(kind, slots, locals, 0, |locals|) == {};
    }
  }

  lemma {:induction false} PairsGrow(kind: Kind, slots: seq<Slot>, locals: seq<LocalTrack>, n: nat)
    requires n < |slots|
    ensures |Pairs(kind, slots, locals, n + 1, |locals|)| ==
            |Pairs(kind, slots, locals, n, |locals|)| + |RowPairs(kind, slots, locals, n, |locals|)|
  {
    hide Meets;
    var before, row := Pairs(kind, slots, locals, n, |locals|), RowPairs(kind, slots, locals, n, |locals|);
    assert Pairs(kind, slots, locals, n + 1, |locals|) == before + row;
    assert before !! row;
  }

  function RowPairs(kind: Kind, slots: seq<Slot>, locals: seq<LocalTrack>, i: nat, k: nat): set<(int, int)>
    requires i < |slots| && k <= |locals|
  {
    set j | 0 <= j < k && Meets(kind, slots, locals, i, j) :: (i as int, j)
  }

  lemma {:induction false} RowIsPairs(kind: Kind, slots: seq<Slot>, locals: seq<LocalTrack>, i: nat, k: nat)
    requires i < |slots| && k <= |locals|
    ensures |RowPairs(kind, slots, locals, i, k)| == Row(kind, slots[i], locals[..k])
  {
    if k > 0 {
      assert locals[..k][..k - 1] == locals[..k - 1];
      HitMeets(kind, slots, locals, i, k - 1);
      hide Meets, Hit;
      RowIsPairs(kind, slots, locals, i, k - 1);
      RowPairsGrow(kind, slots, locals, i, k - 1);
    } else {
      assert RowPairs(kind, slots, locals, i, 0) == {};
    }
  }

  lemma {:induction false} HitMeets(kind: Kind, slots: seq<Slot>, locals: seq<LocalTrack>, i: nat, j: nat)
    requires i < |slots| && j < |locals|
    ensures Hit(kind, slots[i], locals[j]) <==> Meets(kind, slots, locals, i, j)
  {
  }

  lemma {:induction false} RowPairsGrow(kind: Kind, slots: seq<Slot>, locals: seq<LocalTrack>, i: nat, k: nat)
    requires i < |slots| && k < |locals|
    ensures |RowPairs(kind, slots, locals, i, k + 1)| ==
            |RowPairs(kind, slots, locals, i, k)| + if Meets(kind, slots, locals, i, k) then 1 else 0
  {
    hide Meets;
    var before := RowPairs(kind, slots, locals, i, k);
    assert RowPairs(kind, slots, locals, i, k + 1) == if Meets(kind, slots, locals, i, k) then before + {(i as int, k as int)} else before;
  }

  /** The score and its evidence: 45 points for the title, 25 for an artist, 10 for the year, 10
      for the number of tracks, and up to 10 for the tracks with close durations. */
  lemma {:induction false} ScoreInRows(local: Local, r: Release)
    ensures var e, slots, n := EvidenceOf(local, r), Slots(r.media), local.trackCount;
            && e.title == (local.title == r.title)
            && e.artist == (exists i :: 0 <= i < |r.credits| && (r.credits[i].name in local.artists || r.credits[i].artistId in local.artistIds))
            && e.year == (local.year > 0 && r.year == Some(local.year)) && e.trackCount == (n > 0 && Total(r.media) == n)
            && (n <= 0 ==> e.positions == 0 && e.titles == 0 && e.durations == 0)
            && (n > 0 ==> e.positions == |Pairs(Positions, slots, local.tracks, |slots|, |local.tracks|)|
                          && e.titles == |Pairs(Titles, slots, local.tracks, |slots|, |local.tracks|)|
                          && e.durations == |Pairs(Durations, slots, local.tracks, |slots|, |local.tracks|)|)
    ensures var e, n := EvidenceOf(local, r), local.trackCount;
            Score(local, r) == (if e.title then 45.0 else 0.0) + (if e.artist then 25.0 else 0.0) + (if e.year then 10.0 else 0.0)
                               + (if e.trackCount then 10.0 else 0.0) + (if n > 0 then 10.0 * e.durations as real / n as real else 0.0)
  {
    var slots := Slots(r.media);
    assert slots[..|slots|] == slots;
    HitsArePairs(Positions, slots, local.tracks, |slots|);
    HitsArePairs(Titles, slots, local.tracks, |slots|);
    HitsArePairs(Durations, slots, local.tracks, |slots|);
    hide Hits, Slots, Total, Pairs;
  }

  // ---------------------------------------------------------------------
  // What a score says

  /** No two candidate tracks share a position. */
  predicate DistinctPositions(slots: seq<Slot>) {
    forall i, j :: 0 <= i < j < |slots| ==> slots[i].disc != slots[j].disc || slots[i].track.position != slots[j].track.position
  }

  /** Hits of one local track. */
  function Column(kind: Kind, slots: seq<Slot>, lt: LocalTrack): nat {
    if slots == [] then 0 else Column(kind, slots[..|slots| - 1], lt) + Bit(Hit(kind, slots[|slots| - 1], lt))
  }

  lemma {:induction false} RowStep(kind: Kind, slots: seq<Slot>, locals: seq<LocalTrack>)
    requires locals != []
    ensures Hits(kind, slots, locals) == Hits(kind, slots, locals[..|locals| - 1]) + Column(kind, slots, locals[|locals| - 1])
  {
    if slots != [] {
      RowStep(kind, slots[..|slots| - 1], locals);
    }
  }

  lemma {:induction false} NoEarlierHit(kind: Kind, slots: seq<Slot>, lt: LocalTrack, s: Slot)
    requires Aligned(s, lt) && forall i :: 0 <= i < |slots| ==> slots[i].disc != s.disc || slots[i].track.position != s.track.position
    ensures Column(kind, slots, lt) == 0
  {
    if slots != [] {
      NoEarlierHit(kind, slots[..|slots| - 1], lt, s);
      assert slots[|slots| - 1].disc != s.disc || slots[|slots| - 1].track.position != s.track.position;
    }
  }

  /** Each local track can be hit once. */
  lemma {:induction false} ColumnAtMostOne(kind: Kind, slots: seq<Slot>, lt: LocalTrack)
    requires DistinctPositions(slots)
    ensures Column(kind, slots, lt) <= 1
  {
    if slots != [] {
      var rest, s := slots[..|slots| - 1], slots[|slots| - 1];
      ColumnAtMostOne(kind, rest, lt);
      if Aligned(s, lt) {
        forall i | 0 <= i < |rest|
          ensures rest[i].disc != s.disc || rest[i].track.position != s.track.position
        {
          assert slots[i] == rest[i];
        }
        NoEarlierHit(kind, rest, lt, s);
      }
    }
  }

  /** Counting by candidate track or by local track gives the same, so there are at most as
      many hits as local tracks. */
  lemma {:induction false} HitsAtMostLocals(kind: Kind, slots: seq<Slot>, locals: seq<LocalTrack>)
    requires DistinctPositions(slots)
    ensures Hits(kind, slots, locals) <= |locals|
  {
    if locals == [] {
      NoLocalsNoHits(kind, slots);
    } else {
      RowStep(kind, slots, locals);
      HitsAtMostLocals(kind, slots, locals[..|locals| - 1]);
      ColumnAtMostOne(kind, slots, locals[|locals| - 1]);
    }
  }

  lemma {:induction false} NoLocalsNoHits(kind: Kind, slots: seq<Slot>)
    ensures Hits(kind, slots, []) == 0
  {
    if slots != [] {
      NoLocalsNoHits(kind, slots[..|slots| - 1]);
    }
  }

  lemma {:induction false} ShareAtMostOne(hits: nat, count: int)
    requires count > 0 && hits <= count
    ensures 0.0 <= 10.0 * hits as real / count as real <= 10.0
  {
    assert hits as real <= count as real;
  }

  /** The thresholds carry evidence: with distinct candidate positions and a track count that
      counts the local tracks, the score is between 0 and 100, 60 takes an exact title, and 80
      an exact title and a matched artist. */
  lemma {:induction false} ThresholdsCarryEvidence(local: Local, r: Release)
    requires DistinctPositions(Slots(r.media)) && local.trackCount == |local.tracks|
    ensures 0.0 <= Score(local, r) <= 100.0
    ensures Score(local, r) >= 60.0 ==> local.title == r.title
    ensures Score(local, r) >= 80.0 ==> local.title == r.title && ArtistMatches(local, r)
  {
    HitsAtMostLocals(Durations, Slots(r.media), local.tracks);
    var e := EvidenceOf(local, r);
    hide Hits, Slots, ArtistMatches, Total;
    if local.trackCount > 0 {
      ShareAtMostOne(e.durations, local.trackCount);
    }
  }

  lemma {:induction false} ShareAtLeast(hits: nat, count: int, c: real)
    requires count > 0
    ensures 10.0 * hits as real / count as real >= c <==> 10.0 * hits as real >= c * count as real
    ensures 10.0 * hits as real / count as real > c <==> 10.0 * hits as real > c * count as real
    ensures 10.0 * hits as real / count as real >= 0.0
  {
    var share, n := 10.0 * hits as real / count as real, count as real;
    assert share * n == 10.0 * hits as real;
    assert share >= c ==> share * n >= c * n;
    assert share <= c ==> share * n <= c * n;
  }

  /** An edition with these media against an album with these tracks and this declared count;
      titles, artists, credits and years are free. */
  ghost predicate Compared(local: Local, r: Release, media: seq<Medium>, tracks: seq<LocalTrack>, count: int) {
    r.media == media && local.tracks == tracks && local.trackCount == count
  }

  /** Few enough hits that duration evidence cannot stand in for a title or an artist. */
  predicate HitsInBounds(media: seq<Medium>, tracks: seq<LocalTrack>, count: int) {
    var h := Hits(Durations, Slots(media), tracks);
    count <= 0 || (if Total(media) == count then 2 * h < 3 * count else 2 * h < 5 * count)
  }

  /** Few enough hits that no score passes 100. */
  predicate HitsInRange(media: seq<Medium>, tracks: seq<LocalTrack>, count: int) {
    var h := Hits(Durations, Slots(media), tracks);
    count <= 0 || (if Total(media) == count then h <= count else h <= 2 * count)
  }

  ghost predicate SixtyTakesTitle(media: seq<Medium>, tracks: seq<LocalTrack>, count: int) {
    forall local, r :: Compared(local, r, media, tracks, count) && Score(local, r) >= 60.0 ==> local.title == r.title
  }

  ghost predicate EightyTakesBoth(media: seq<Medium>, tracks: seq<LocalTrack>, count: int) {
    forall local, r :: Compared(local, r, media, tracks, count) && Score(local, r) >= 80.0 ==>
      local.title == r.title && ArtistMatches(local, r)
  }

  ghost predicate ScoresInRange(media: seq<Medium>, tracks: seq<LocalTrack>, count: int) {
    forall local, r :: Compared(local, r, media, tracks, count) ==> 0.0 <= Score(local, r) <= 100.0
  }

  /** The score of one pair, split into what the tracks give and what the rest gives. */
  function TrackShare(media: seq<Medium>, tracks: seq<LocalTrack>, count: int): real {
    if count <= 0 then 0.0
    else (if Total(media) == count then 10.0 else 0.0) + 10.0 * Hits(Durations, Slots(media), tracks) as real / count as real
  }

  lemma {:induction false} ScoreSplits(local: Local, r: Release)
    ensures Score(local, r) == (if local.title == r.title then 45.0 else 0.0) + (if ArtistMatches(local, r) then 25.0 else 0.0)
                               + (if local.year > 0 && r.year == Some(local.year) then 10.0 else 0.0)
                               + TrackShare(r.media, local.tracks, local.trackCount)
  {
    hide Hits, Slots, Total, ArtistMatches;
  }

  /** An album and an edition with these tracks that agree on whatever is asked. */
  lemma {:induction false} Agreeing(media: seq<Medium>, tracks: seq<LocalTrack>, count: int, title: bool, artist: bool)
    returns (local: Local, r: Release)
    ensures Compared(local, r, media, tracks, count) && (local.title == r.title <==> title) && (ArtistMatches(local, r) <==> artist)
    ensures Score(local, r) == (if title then 45.0 else 0.0) + (if artist then 25.0 else 0.0) + 10.0 + TrackShare(media, tracks, count)
  {
    local := Local(1, {1}, {}, 2000, count, tracks);
    r := Release("", if title then 1 else 2, Some(2000), [Credit(if artist then 1 else 2, "")], "", media);
    assert CreditMatches(local, r.credits[0]) <==> artist;
    ScoreSplits(local, r);
    hide TrackShare;
  }

  /** Exactly when the thresholds carry evidence, for every media list, track list and count. With h
      duration hits and a count n > 0, no choice of titles, artists and years reaches 60 without an
      exact title if and only if 2h < 3n when the totals agree, and 2h < 5n when they do not; and
      under exactly the same condition 80 takes both title and artist. No score passes 100 if and
      only if h <= n, or h <= 2n. */
  lemma {:induction false} ThresholdsCarryEvidenceIff(media: seq<Medium>, tracks: seq<LocalTrack>, count: int)
    ensures SixtyTakesTitle(media, tracks, count) <==> HitsInBounds(media, tracks, count)
    ensures EightyTakesBoth(media, tracks, count) <==> HitsInBounds(media, tracks, count)
    ensures ScoresInRange(media, tracks, count) <==> HitsInRange(media, tracks, count)
  {
    var share := TrackShare(media, tracks, count);
    ShareThresholds(media, tracks, count);
    forall local, r | Compared(local, r, media, tracks, count)
      ensures Score(local, r) <= 80.0 + share
      ensures local.title != r.title ==> Score(local, r) <= 35.0 + share
      ensures !ArtistMatches(local, r) ==> Score(local, r) <= 55.0 + share
      ensures 0.0 <= share <= Score(local, r)
    {
      ScoreSplits(local, r);
    }
    hide TrackShare, HitsInBounds, HitsInRange, ArtistMatches, Score;
    var l1, r1 := Agreeing(media, tracks, count, false, true);
    var l2, r2 := Agreeing(media, tracks, count, true, false);
    var l3, r3 := Agreeing(media, tracks, count, true, true);
    assert Score(l1, r1) == 35.0 + share && Score(l2, r2) == 55.0 + share && Score(l3, r3) == 80.0 + share;
  }

  lemma {:induction false} ShareThresholds(media: seq<Medium>, tracks: seq<LocalTrack>, count: int)
    ensures TrackShare(media, tracks, count) >= 0.0
    ensures TrackShare(media, tracks, count) < 25.0 <==> HitsInBounds(media, tracks, count)
    ensures TrackShare(media, tracks, count) <= 20.0 <==> HitsInRange(media, tracks, count)
  {
    if count > 0 {
      var h := Hits(Durations, Slots(media), tracks);
      ShareAtLeast(h, count, 25.0);
      ShareAtLeast(h, count, 15.0);
      ShareAtLeast(h, count, 20.0);
      ShareAtLeast(h, count, 10.0);
      assert 2 * h < 3 * count <==> 10.0 * h as real < 15.0 * count as real;
      assert 2 * h < 5 * count <==> 10.0 * h as real < 25.0 * count as real;
      assert h <= count <==> 10.0 * h as real <= 10.0 * count as real;
      assert h <= 2 * count <==> 10.0 * h as real <= 20.0 * count as real;
      hide Hits, Slots, Total;
    }
  }

  lemma {:induction false} SlotAt(m: Medium, i: nat)
    requires i < |m.tracks|
    ensures |SlotsOf(m)| == |m.tracks| && SlotsOf(m)[i] == Slot(DiscNumber(m.position), m.tracks[i])
  {
  }

  /** A medium that lists one position eight times. */
  function Repeated(recording: string): Medium {
    Medium(1, 0, seq(8, i => CandidateTrack(1, recording, 2, 0)))
  }

  /** Without distinct positions they do not: a release that lists the same position eight times
      scores 80 against a one-track album with another title by another artist. */
  lemma {:induction false} RepeatedPositionsInflateScore(recording: string)
    ensures var local := Local(1, {}, {}, 0, 1, [LocalTrack(1, 1, 1, 0)]);
            var r := Release("", 2, None, [], "", [Repeated(recording)]);
            Score(local, r) == 80.0 && local.title != r.title && !ArtistMatches(local, r)
  {
    var local := Local(1, {}, {}, 0, 1, [LocalTrack(1, 1, 1, 0)]);
    var m := Repeated(recording);
    var r := Release("", 2, None, [], "", [m]);
    var slots := SlotsOf(m);
    assert [m][..0] == [] && Slots([m][..0]) == [] && Total([m][..0]) == 0;
    assert Slots(r.media) == slots && Total(r.media) == 8;
    forall i | 0 <= i < |slots|
      ensures Hit(Durations, slots[i], local.tracks[0])
    {
      SlotAt(m, i);
      assert DiscNumber(1) == 1;
    }
    AllHit(slots, local.tracks[0]);
  }

  lemma {:induction false} AllHit(slots: seq<Slot>, lt: LocalTrack)
    requires forall i :: 0 <= i < |slots| ==> Hit(Durations, slots[i], lt)
    ensures Hits(Durations, slots, [lt]) == |slots|
  {
    if slots != [] {
      AllHit(slots[..|slots| - 1], lt);
      assert [lt][..0] == [] && Row(Durations, slots[|slots| - 1], [lt][..0]) == 0;
    }
  }

  // ---------------------------------------------------------------------
  // The loops

  lemma {:induction false} HitsAppend(kind: Kind, slots: seq<Slot>, s: Slot, locals: seq<LocalTrack>)
    ensures Hits(kind, slots + [s], locals) == Hits(kind, slots, locals) + Row(kind, s, locals)
  {
    assert (slots + [s])[..|slots|] == slots;
  }

  method CountTrack(s: Slot, locals: seq<LocalTrack>) returns (positions: nat, titles: nat, durations: nat)
    ensures positions == Row(Positions, s, locals) && titles == Row(Titles, s, locals) && durations == Row(Durations, s, locals)
  {
    positions, titles, durations := 0, 0, 0;
    var i := 0;
    while i < |locals|
      invariant 0 <= i <= |locals|
      invariant positions == Row(Positions, s, locals[..i]) && titles == Row(Titles, s, locals[..i])
      invariant durations == Row(Durations, s, locals[..i])
    {
      assert locals[..i + 1][..i] == locals[..i];
      var lt := locals[i];
      if DiscNumber(lt.disc) == s.disc && lt.index == s.track.position {
        positions := positions + 1;
        if lt.title == s.track.title {
          titles := titles + 1;
        }
        if DurationClose(lt.duration, s.track.length) {
          durations := durations + 1;
        }
      }
      i := i + 1;
    }
    assert locals[..|locals|] == locals;
  }

  /** scoreRelease. */
  method ScoreRelease(local: Local, r: Release) returns (score: real, e: Evidence)
    ensures e == EvidenceOf(local, r) && score == Score(local, r)
  {
    var artistMatch := false;
    var i := 0;
    while i < |r.credits|
      invariant 0 <= i <= |r.credits|
      invariant artistMatch <==> exists k :: 0 <= k < i && CreditMatches(local, r.credits[k])
    {
      if CreditMatches(local, r.credits[i]) {
        artistMatch := true;
      }
      i := i + 1;
    }
    var count, positions, titles, durations := CountMedia(r.media, local.tracks);
    e := Evidence(local.title == r.title, artistMatch, local.year > 0 && r.year == Some(local.year),
                  local.trackCount > 0 && count == local.trackCount, 0, 0, 0);
    score := 0.0;
    if e.title {
      score := score + 45.0;
    }
    if e.artist {
      score := score + 25.0;
    }
    if e.year {
      score := score + 10.0;
    }
    if e.trackCount {
      score := score + 10.0;
    }
    if local.trackCount > 0 {
      score := score + 10.0 * durations as real / local.trackCount as real;
      e := e.(positions := positions, titles := titles, durations := durations);
    }
  }

  method CountMedium(m: Medium, locals: seq<LocalTrack>) returns (positions: nat, titles: nat, durations: nat)
    ensures positions == Hits(Positions, SlotsOf(m), locals)
    ensures titles == Hits(Titles, SlotsOf(m), locals) && durations == Hits(Durations, SlotsOf(m), locals)
  {
    positions, titles, durations := 0, 0, 0;
    ghost var slots := SlotsOf(m);
    var k := 0;
    while k < |m.tracks|
      invariant 0 <= k <= |m.tracks|
      invariant positions == Hits(Positions, slots[..k], locals)
      invariant titles == Hits(Titles, slots[..k], locals) && durations == Hits(Durations, slots[..k], locals)
    {
      var p, t, d := CountTrack(Slot(DiscNumber(m.position), m.tracks[k]), locals);
      assert slots[..k + 1] == slots[..k] + [slots[k]];
      HitsAppend(Positions, slots[..k], slots[k], locals);
      HitsAppend(Titles, slots[..k], slots[k], locals);
      HitsAppend(Durations, slots[..k], slots[k], locals);
      positions, titles, durations := positions + p, titles + t, durations + d;
      k := k + 1;
    }
    assert slots[..|m.tracks|] == slots;
  }

  lemma {:induction false} HitsConcat(kind: Kind, a: seq<Slot>, b: seq<Slot>, locals: seq<LocalTrack>)
    ensures Hits(kind, a + b, locals) == Hits(kind, a, locals) + Hits(kind, b, locals)
  {
    if b == [] {
      assert a + b == a;
    } else {
      HitsConcat(kind, a, b[..|b| - 1], locals);
      assert (a + b)[..|a + b| - 1] == a + b[..|b| - 1];
    }
  }

  method CountMedia(media: seq<Medium>, locals: seq<LocalTrack>) returns (count: int, positions: nat, titles: nat, durations: nat)
    ensures count == Total(media) && positions == Hits(Positions, Slots(media), locals)
    ensures titles == Hits(Titles, Slots(media), locals) && durations == Hits(Durations, Slots(media), locals)
  {
    count, positions, titles, durations := 0, 0, 0, 0;
    assert Hits(Positions, [], locals) == Hits(Titles, [], locals) == Hits(Durations, [], locals) == 0;
    hide Hits, SlotsOf;
    var i := 0;
    while i < |media|
      invariant 0 <= i <= |media| && count == Total(media[..i])
      invariant positions == Hits(Positions, Slots(media[..i]), locals) && titles == Hits(Titles, Slots(media[..i]), locals)
      invariant durations == Hits(Durations, Slots(media[..i]), locals)
    {
      var m := media[i];
      assert media[..i + 1][..i] == media[..i];
      count := count + if |m.tracks| == 0 then m.trackCount else |m.tracks|;
      var p, t, d := CountMedium(m, locals);
      HitsConcat(Positions, Slots(media[..i]), SlotsOf(m), locals);
      HitsConcat(Titles, Slots(media[..i]), SlotsOf(m), locals);
      HitsConcat(Durations, Slots(media[..i]), SlotsOf(m), locals);
      positions, titles, durations := positions + p, titles + t, durations + d;
      i := i + 1;
    }
    assert media[..|media|] == media;
  }
}
