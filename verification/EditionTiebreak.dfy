/** Choosing between editions tied on score (editionTiebreak, alignedRecordings,
    internal/mbresolver/resolver.go): when the choice depends on the order in which the
    provider listed the candidates, and when it does not. */
module EditionTiebreak {
  import opened Common
  import opened EditionScore

  datatype Scored = Scored(release: Release, score: real, evidence: Evidence)

  // ---------------------------------------------------------------------
  // The tie-break

  predicate StrongSearchMatch(local: Local, c: Scored) {
    var e := c.evidence;
    && e.title && e.artist && e.positions != 0
    && ((e.trackCount && e.positions == local.trackCount && e.titles * 5 >= local.trackCount * 4)
        || (e.titles != 0
            && if local.year > 0 then e.year && (e.titles >= 2 || (local.trackCount == 1 && e.durations == 1))
               else e.titles >= 2 && e.durations >= 2))
  }

  predicate StrongCandidate(local: Local, c: Scored) {
    || (c.score >= 80.0 && StrongSearchMatch(local, c))
    || (c.score >= 60.0 && c.evidence.title && c.evidence.year && c.evidence.trackCount
        && c.evidence.positions == local.trackCount && c.evidence.titles * 5 >= local.trackCount * 4)
  }

  predicate Fits(local: Local, c: Scored) {
    c.evidence.trackCount && StrongCandidate(local, c)
  }

  function Fitting(local: Local, scored: seq<Scored>): seq<Scored> {
    if scored == [] then []
    else
      var rest, c := Fitting(local, scored[..|scored| - 1]), scored[|scored| - 1];
      if Fits(local, c) then rest + [c] else rest
  }

  type Alignment = map<(int, int), string>

  predicate OnLocal(local: Local, s: Slot) {
    exists i :: 0 <= i < |local.tracks| && Aligned(s, local.tracks[i])
  }

  /** alignedRecordings: a later candidate track at the same position overwrites. */
  function AlignedIn(local: Local, slots: seq<Slot>): Alignment {
    if slots == [] then map[]
    else
      var rest, s := AlignedIn(local, slots[..|slots| - 1]), slots[|slots| - 1];
      if OnLocal(local, s) then rest[(s.disc, s.track.position) := s.track.recording] else rest
  }

  function AlignedRecordings(local: Local, r: Release): Alignment {
    AlignedIn(local, Slots(r.media))
  }

  /** A missing key reads as the empty string. */
  function At(a: Alignment, p: (int, int)): string {
    if p in a then a[p] else ""
  }

  /** The comparison of editionTiebreak. */
  predicate SameAs(reference: Alignment, other: Alignment) {
    |other| == |reference| && forall p :: p in reference ==> At(other, p) == reference[p]
  }

  predicate OneGroup(fitting: seq<Scored>) {
    forall i :: 0 <= i < |fitting| ==> fitting[i].release.group == fitting[0].release.group
  }

  predicate Interchangeable(local: Local, fitting: seq<Scored>) {
    forall i :: 0 < i < |fitting| ==>
      SameAs(AlignedRecordings(local, fitting[0].release), AlignedRecordings(local, fitting[i].release))
  }

  /** editionTiebreak. */
  function Tiebreak(local: Local, scored: seq<Scored>): Option<Scored> {
    var fitting := Fitting(local, scored);
    if fitting != [] && fitting[0].release.group != "" && OneGroup(fitting) && Interchangeable(local, fitting) then Some(fitting[0])
    else None
  }

  // ---------------------------------------------------------------------
  // What acceptance means

  /** Every recording the candidate lists has an id. */
  predicate RecordingsNamed(r: Release) {
    forall i :: 0 <= i < |Slots(r.media)| ==> Slots(r.media)[i].track.recording != ""
  }

  lemma {:induction false} FittingMember(local: Local, scored: seq<Scored>, c: Scored)
    ensures c in Fitting(local, scored) <==> c in scored && Fits(local, c)
  {
    if scored != [] {
      var last := |scored| - 1;
      FittingMember(local, scored[..last], c);
      assert c in scored <==> c in scored[..last] || c == scored[last] by {
        assert scored == scored[..last] + [scored[last]];
      }
      hide Fits;
    }
  }

  lemma {:induction false} AlignedNamed(local: Local, slots: seq<Slot>, p: (int, int))
    requires forall i :: 0 <= i < |slots| ==> slots[i].track.recording != ""
    ensures p in AlignedIn(local, slots) ==> AlignedIn(local, slots)[p] != ""
  {
    if slots != [] {
      AlignedNamed(local, slots[..|slots| - 1], p);
      hide OnLocal;
    }
  }

  /** Once no recorded id is empty, the comparison is equality of the aligned recordings. */
  lemma {:induction false} SameAsIsEquality(reference: Alignment, other: Alignment)
    requires forall p :: p in reference ==> reference[p] != ""
    ensures SameAs(reference, other) <==> reference == other
  {
    if SameAs(reference, other) {
      forall p | p in reference
        ensures p in other && other[p] == reference[p]
      {
        assert At(other, p) == reference[p];
      }
      assert reference.Keys <= other.Keys;
      SubsetCardinality(reference.Keys, other.Keys);
    }
  }

  /** The editions that fit agree: one non-empty release group, one aligned recording map. The
      order of the candidates plays no part in this. */
  ghost predicate Agree(local: Local, scored: seq<Scored>) {
    && (exists c :: c in scored && Fits(local, c))
    && (forall c, d :: c in scored && d in scored && Fits(local, c) && Fits(local, d) ==> Equivalent(local, c, d))
  }

  ghost predicate Equivalent(local: Local, c: Scored, d: Scored) {
    && c.release.group != "" && c.release.group == d.release.group
    && AlignedRecordings(local, c.release) == AlignedRecordings(local, d.release)
  }

  predicate FittingNamed(local: Local, scored: seq<Scored>) {
    forall i :: 0 <= i < |scored| && Fits(local, scored[i]) ==> RecordingsNamed(scored[i].release)
  }

  lemma {:induction false} FittingAgreesWithFirst(local: Local, fitting: seq<Scored>, i: nat)
    requires i < |fitting| && (forall k :: 0 <= k < |fitting| ==> RecordingsNamed(fitting[k].release))
    requires fitting[0].release.group != "" && OneGroup(fitting) && Interchangeable(local, fitting)
    ensures Equivalent(local, fitting[0], fitting[i])
  {
    var reference := AlignedRecordings(local, fitting[0].release);
    forall p | p in reference
      ensures reference[p] != ""
    {
      AlignedNamed(local, Slots(fitting[0].release.media), p);
    }
    hide AlignedRecordings, Slots, RecordingsNamed;
    if i > 0 {
      SameAsIsEquality(reference, AlignedRecordings(local, fitting[i].release));
    }
  }

  /** This edition, listed first among those that fit, would be accepted. */
  ghost predicate Accepts(local: Local, scored: seq<Scored>, c: Scored) {
    c.release.group != "" &&
    forall d :: d in scored && Fits(local, d) ==>
      d.release.group == c.release.group && SameAs(AlignedRecordings(local, c.release), AlignedRecordings(local, d.release))
  }

  lemma {:induction false} FirstDecides(local: Local, scored: seq<Scored>)
    ensures Tiebreak(local, scored).Some? <==> Fitting(local, scored) != [] && Accepts(local, scored, Fitting(local, scored)[0])
    ensures Tiebreak(local, scored).Some? ==> Tiebreak(local, scored).value == Fitting(local, scored)[0]
  {
    var fitting := Fitting(local, scored);
    forall c
      ensures c in fitting <==> c in scored && Fits(local, c)
    {
      FittingMember(local, scored, c);
    }
    hide Fits, AlignedRecordings, Fitting;
    if fitting != [] && Accepts(local, scored, fitting[0]) {
      forall i | 0 <= i < |fitting|
        ensures fitting[i].release.group == fitting[0].release.group
        ensures SameAs(AlignedRecordings(local, fitting[0].release), AlignedRecordings(local, fitting[i].release))
      {
        assert fitting[i] in fitting;
      }
    }
    if Tiebreak(local, scored).Some? {
      forall d | d in scored && Fits(local, d)
        ensures d.release.group == fitting[0].release.group
        ensures SameAs(AlignedRecordings(local, fitting[0].release), AlignedRecordings(local, d.release))
      {
        assert d in fitting;
        var i :| 0 <= i < |fitting| && fitting[i] == d;
      }
    }
  }

  /** editionTiebreak accepts exactly when the first edition that fits has a release group that
      all of them share and an alignment that each of the others repeats, and returns it; when
      the recordings are named, exactly when the fitting editions agree with each other. */
  lemma {:induction false} TiebreakAcceptsAgreement(local: Local, scored: seq<Scored>)
    ensures Tiebreak(local, scored).Some? <==> Fitting(local, scored) != [] && Accepts(local, scored, Fitting(local, scored)[0])
    ensures Tiebreak(local, scored).Some? ==> Tiebreak(local, scored).value in scored && Fits(local, Tiebreak(local, scored).value)
    ensures FittingNamed(local, scored) ==> (Tiebreak(local, scored).Some? <==> Agree(local, scored))
  {
    FirstDecides(local, scored);
    var fitting := Fitting(local, scored);
    forall c
      ensures c in fitting <==> c in scored && Fits(local, c)
    {
      FittingMember(local, scored, c);
    }
    hide Fits, AlignedRecordings, RecordingsNamed, Fitting, Accepts;
    if Tiebreak(local, scored).Some? {
      assert fitting[0] in fitting;
    }
    if FittingNamed(local, scored) {
      forall k | 0 <= k < |fitting|
        ensures RecordingsNamed(fitting[k].release)
      {
        assert fitting[k] in fitting;
      }
      if Tiebreak(local, scored).Some? {
        AcceptedAgree(local, scored, fitting);
      }
      if Agree(local, scored) {
        AgreedAccepted(local, scored, fitting);
      }
    }
  }

  // ---------------------------------------------------------------------
  // The choice in columns

  /** An edition that may be the one: exact in title and number of tracks, and either a score of
      80 with a matched artist and enough evidence, or one of 60 with the exact year and all
      positions, and four titles in five. */
  predicate Qualifies(local: Local, c: Scored) {
    var e := c.evidence;
    var full := e.positions == local.trackCount && 5 * e.titles >= 4 * local.trackCount;
    && e.trackCount && e.title
    && ((c.score >= 60.0 && e.year && full)
        || (c.score >= 80.0 && e.artist && e.positions != 0 && (full || (e.titles != 0 && SomeEvidence(local, e)))))
  }

  /** With a local year, that year and two titles, or the one track there is; without, two titles
      and two durations. */
  predicate SomeEvidence(local: Local, e: Evidence) {
    if local.year <= 0 then e.titles >= 2 && e.durations >= 2
    else e.year && (e.titles >= 2 || (e.durations == 1 && local.trackCount == 1))
  }

  lemma QualifiesFits(local: Local, c: Scored)
    ensures Fits(local, c) <==> Qualifies(local, c)
  {
  }

  /** The first that qualifies is chosen when all that qualify share its release group, which has an
      id, and repeat its recordings position by position; nothing else is ever chosen. */
  lemma {:induction false} ChosenExactly(local: Local, scored: seq<Scored>, c: Scored)
    ensures Tiebreak(local, scored) == Some(c) <==>
            && (exists i :: 0 <= i < |scored| && scored[i] == c && Qualifies(local, c) && forall k :: 0 <= k < i ==> !Qualifies(local, scored[k]))
            && c.release.group != ""
            && forall k :: 0 <= k < |scored| && Qualifies(local, scored[k]) ==>
                 && scored[k].release.group == c.release.group
                 && var reference, other := AlignedRecordings(local, c.release), AlignedRecordings(local, scored[k].release);
                    |other| == |reference| && forall p :: p in reference ==> reference[p] == if p in other then other[p] else ""
  {
    FirstDecides(local, scored);
    forall d
      ensures Fits(local, d) <==> Qualifies(local, d)
    {
      QualifiesFits(local, d);
    }
    hide Fits, Qualifies, AlignedRecordings, Tiebreak, Fitting;
    FirstFitting(local, scored, c);
    forall k | 0 <= k < |scored|
      ensures scored[k] in scored
    {
    }
  }

  lemma {:induction false} FirstFitting(local: Local, scored: seq<Scored>, c: Scored)
    ensures Fitting(local, scored) != [] && Fitting(local, scored)[0] == c <==>
            exists i :: 0 <= i < |scored| && scored[i] == c && Fits(local, c) && forall k :: 0 <= k < i ==> !Fits(local, scored[k])
    ensures Fitting(local, scored) == [] <==> forall k :: 0 <= k < |scored| ==> !Fits(local, scored[k])
  {
    hide Fits;
    if scored != [] {
      var rest := scored[..|scored| - 1];
      assert scored == rest + [scored[|rest|]];
      FirstFitting(local, rest, c);
      assert forall k :: 0 <= k < |rest| ==> scored[k] == rest[k];
    }
  }

  /** The recording aligned at a position is that of the last candidate track there, if a local
      track is there too. */
  lemma {:induction false} AlignedInRows(local: Local, slots: seq<EditionScore.Slot>, d: int, p: int)
    ensures (d, p) in AlignedIn(local, slots) <==> LocalAt(local, d, p) && exists i :: 0 <= i < |slots| && TrackAt(slots[i], d, p)
    ensures (d, p) in AlignedIn(local, slots) ==>
              exists i :: 0 <= i < |slots| && TrackAt(slots[i], d, p) && AlignedIn(local, slots)[(d, p)] == slots[i].track.recording
                          && forall k :: i < k < |slots| ==> !TrackAt(slots[k], d, p)
  {
    if slots != [] {
      var rest, s := slots[..|slots| - 1], slots[|slots| - 1];
      assert slots == rest + [s];
      AlignedInRows(local, rest, d, p);
      assert OnLocal(local, s) && TrackAt(s, d, p) <==> LocalAt(local, d, p) && TrackAt(s, d, p) by {
        if TrackAt(s, d, p) {
          forall j | 0 <= j < |local.tracks|
            ensures Aligned(s, local.tracks[j]) <==>
                      (if local.tracks[j].disc <= 0 then 1 else local.tracks[j].disc) == d && local.tracks[j].index == p
          {
          }
        }
      }
      hide OnLocal, LocalAt;
      if TrackAt(s, d, p) {
        assert slots[|rest|] == s;
      }
      assert forall k :: 0 <= k < |rest| ==> slots[k] == rest[k];
    }
  }

  predicate LocalAt(local: Local, d: int, p: int) {
    exists j :: 0 <= j < |local.tracks| && (if local.tracks[j].disc <= 0 then 1 else local.tracks[j].disc) == d && local.tracks[j].index == p
  }

  predicate TrackAt(s: EditionScore.Slot, d: int, p: int) {
    s.disc == d && s.track.position == p
  }

  lemma {:induction false} AcceptedAgree(local: Local, scored: seq<Scored>, fitting: seq<Scored>)
    requires forall c :: c in fitting <==> c in scored && Fits(local, c)
    requires fitting != [] && forall k :: 0 <= k < |fitting| ==> RecordingsNamed(fitting[k].release)
    requires fitting[0].release.group != "" && OneGroup(fitting) && Interchangeable(local, fitting)
    ensures Agree(local, scored)
  {
    hide Fits, Equivalent, OneGroup, Interchangeable, RecordingsNamed;
    assert fitting[0] in fitting;
    forall c, d | c in scored && d in scored && Fits(local, c) && Fits(local, d)
      ensures Equivalent(local, c, d)
    {
      assert c in fitting && d in fitting;
      var i :| 0 <= i < |fitting| && fitting[i] == c;
      var j :| 0 <= j < |fitting| && fitting[j] == d;
      FittingAgreesWithFirst(local, fitting, i);
      FittingAgreesWithFirst(local, fitting, j);
      EquivalentTrans(local, fitting[0], c, d);
    }
  }

  lemma {:induction false} EquivalentTrans(local: Local, b: Scored, c: Scored, d: Scored)
    requires Equivalent(local, b, c) && Equivalent(local, b, d)
    ensures Equivalent(local, c, d)
  {
    hide AlignedRecordings;
  }

  lemma {:induction false} AgreedAccepted(local: Local, scored: seq<Scored>, fitting: seq<Scored>)
    requires forall c :: c in fitting <==> c in scored && Fits(local, c)
    requires Agree(local, scored)
    ensures fitting != [] && fitting[0].release.group != "" && OneGroup(fitting) && Interchangeable(local, fitting)
  {
    hide Fits, AlignedRecordings;
    var c :| c in scored && Fits(local, c);
    assert c in fitting;
    assert fitting[0] in fitting;
    forall i | 0 <= i < |fitting|
      ensures Equivalent(local, fitting[0], fitting[i])
    {
      assert fitting[i] in fitting;
    }
    assert Equivalent(local, fitting[0], fitting[0]);
    forall i | 0 < i < |fitting|
      ensures SameAs(AlignedRecordings(local, fitting[0].release), AlignedRecordings(local, fitting[i].release))
    {
      assert Equivalent(local, fitting[0], fitting[i]);
    }
  }

  /** The alignments agree at every position, an absent recording counting as an unnamed one. */
  ghost predicate SamePositions(a: Alignment, b: Alignment) {
    forall p :: At(a, p) == At(b, p)
  }

  lemma {:induction false} SameAsBothWays(a: Alignment, b: Alignment)
    ensures SameAs(a, b) && SameAs(b, a) <==> |a| == |b| && SamePositions(a, b)
  {
    if SamePositions(a, b) {
      assert forall p :: At(a, p) == At(b, p);
    }
    if SameAs(a, b) && SameAs(b, a) {
      forall p ensures At(a, p) == At(b, p) {}
    }
  }

  ghost predicate Reordered(first: seq<Scored>, second: seq<Scored>) {
    multiset(first) == multiset(second)
  }

  /** Acceptance is the same in every order of these candidates. */
  ghost predicate AcceptedAlike(local: Local, scored: seq<Scored>) {
    forall first, second :: Reordered(first, scored) && Reordered(second, scored) ==>
      (Tiebreak(local, first).Some? <==> Tiebreak(local, second).Some?)
  }

  /** No edition that fits would be accepted first, or all of them align alike. */
  ghost predicate OrderFree(local: Local, scored: seq<Scored>) {
    || (forall c :: c in scored && Fits(local, c) ==> !Accepts(local, scored, c))
    || (forall c, d :: c in scored && d in scored && Fits(local, c) && Fits(local, d) ==>
          SamePositions(AlignedRecordings(local, c.release), AlignedRecordings(local, d.release)))
  }

  lemma {:induction false} ReorderedMembers(local: Local, first: seq<Scored>, second: seq<Scored>)
    requires Reordered(first, second)
    ensures forall c :: c in first <==> c in second
    ensures forall c :: Accepts(local, first, c) <==> Accepts(local, second, c)
  {
    forall c
      ensures c in first <==> c in second
    {
      assert c in multiset(first) <==> c in multiset(second);
    }
    hide Fits, AlignedRecordings, SameAs;
  }

  lemma {:induction false} FirstFits(local: Local, c: Scored, rest: seq<Scored>)
    requires Fits(local, c)
    ensures Fitting(local, [c] + rest) != [] && Fitting(local, [c] + rest)[0] == c
  {
    hide Fits;
    var all := [c] + rest;
    if rest == [] {
      assert all[..0] == [] && all[|all| - 1] == c;
      assert Fitting(local, all[..0]) == [];
    } else {
      FirstFits(local, c, rest[..|rest| - 1]);
      assert all[..|all| - 1] == [c] + rest[..|rest| - 1];
    }
  }

  /** Any candidate can be listed first. */
  lemma {:induction false} ListedFirst(local: Local, scored: seq<Scored>, c: Scored) returns (order: seq<Scored>)
    requires c in scored && Fits(local, c)
    ensures Reordered(order, scored)
    ensures Tiebreak(local, order).Some? <==> Accepts(local, scored, c)
  {
    var i :| 0 <= i < |scored| && scored[i] == c;
    var rest := scored[..i] + scored[i + 1..];
    order := [c] + rest;
    assert scored == scored[..i] + [c] + scored[i + 1..];
    assert Reordered(order, scored);
    FirstFits(local, c, rest);
    FirstDecides(local, order);
    hide Fits, Tiebreak, Fitting, Accepts;
    ReorderedMembers(local, order, scored);
  }

  /** If one edition would be accepted first, all would be exactly when all align alike. */
  lemma {:induction false} AllAcceptIff(local: Local, scored: seq<Scored>, b: Scored)
    requires b in scored && Fits(local, b) && Accepts(local, scored, b)
    ensures (forall c :: c in scored && Fits(local, c) ==> Accepts(local, scored, c)) <==> OrderFree(local, scored)
  {
    hide Fits, AlignedRecordings, SameAs, SamePositions;
    var all := forall c :: c in scored && Fits(local, c) ==> Accepts(local, scored, c);
    forall c, d | c in scored && d in scored && Fits(local, c) && Fits(local, d)
      ensures all ==> SamePositions(AlignedRecordings(local, c.release), AlignedRecordings(local, d.release))
      ensures SamePositions(AlignedRecordings(local, c.release), AlignedRecordings(local, d.release)) ==>
                SameAs(AlignedRecordings(local, c.release), AlignedRecordings(local, d.release))
    {
      SameAsBothWays(AlignedRecordings(local, c.release), AlignedRecordings(local, d.release));
      SameSizes(local, scored, b, c, d);
      if all {
        assert Accepts(local, scored, c) && Accepts(local, scored, d);
      }
    }
    assert OrderFree(local, scored) ==> all;
  }

  lemma {:induction false} SameSizes(local: Local, scored: seq<Scored>, b: Scored, c: Scored, d: Scored)
    requires Accepts(local, scored, b) && c in scored && d in scored && Fits(local, c) && Fits(local, d)
    ensures |AlignedRecordings(local, c.release)| == |AlignedRecordings(local, d.release)|
  {
    hide Fits, AlignedRecordings;
    assert SameAs(AlignedRecordings(local, b.release), AlignedRecordings(local, c.release));
    assert SameAs(AlignedRecordings(local, b.release), AlignedRecordings(local, d.release));
  }

  /** Order independence, exactly: for every list of candidates, acceptance is the same in every
      order if and only if no edition that fits would be accepted first, or all that fit align
      alike; named recordings are enough for that. The release accepted is the first that fits, so
      its own id may differ from order to order; its release group, and the recordings at the
      local positions, do not. */
  lemma {:induction false} TiebreakIgnoresOrder(local: Local, scored: seq<Scored>)
    ensures AcceptedAlike(local, scored) <==> OrderFree(local, scored)
    ensures FittingNamed(local, scored) ==> OrderFree(local, scored)
    ensures AppliedAlike(local, scored)
  {
    hide Fits, Tiebreak, Accepts, OrderFree, FittingNamed, SameIdentity, Reordered;
    if AcceptedAlike(local, scored) { AlikeIsFree(local, scored); }
    if OrderFree(local, scored) { FreeIsAlike(local, scored); }
    if FittingNamed(local, scored) { NamedIsFree(local, scored); }
    forall first, second | Reordered(first, scored) && Reordered(second, scored) && BothAccept(local, first, second)
      ensures SameIdentity(local, Tiebreak(local, first).value, Tiebreak(local, second).value)
    {
      AcceptedIdentity(local, scored, first, second);
    }
  }

  ghost predicate SameIdentity(local: Local, c: Scored, d: Scored) {
    && c.release.group == d.release.group != ""
    && SamePositions(AlignedRecordings(local, c.release), AlignedRecordings(local, d.release))
  }

  predicate BothAccept(local: Local, first: seq<Scored>, second: seq<Scored>) {
    Tiebreak(local, first).Some? && Tiebreak(local, second).Some?
  }

  /** Editions accepted in two orders of these candidates carry one identity. */
  ghost predicate AppliedAlike(local: Local, scored: seq<Scored>) {
    forall first, second :: Reordered(first, scored) && Reordered(second, scored) && BothAccept(local, first, second) ==>
      SameIdentity(local, Tiebreak(local, first).value, Tiebreak(local, second).value)
  }

  lemma {:induction false} AlikeIsFree(local: Local, scored: seq<Scored>)
    requires AcceptedAlike(local, scored)
    ensures OrderFree(local, scored)
  {
    if b :| b in scored && Fits(local, b) && Accepts(local, scored, b) {
      hide Fits, Tiebreak, Accepts;
      var accepted := ListedFirst(local, scored, b);
      forall c | c in scored && Fits(local, c)
        ensures Accepts(local, scored, c)
      {
        var order := ListedFirst(local, scored, c);
        assert Reordered(order, scored) && Reordered(accepted, scored);
      }
      AllAcceptIff(local, scored, b);
    }
  }

  /** The edition an order accepts, seen from the whole set of candidates. */
  lemma {:induction false} AcceptedFirst(local: Local, scored: seq<Scored>, order: seq<Scored>)
    requires Reordered(order, scored) && Fitting(local, order) != []
    ensures var c := Fitting(local, order)[0];
            c in scored && Fits(local, c) && (Tiebreak(local, order).Some? <==> Accepts(local, scored, c))
            && (Tiebreak(local, order).Some? ==> Tiebreak(local, order).value == c)
  {
    var c := Fitting(local, order)[0];
    assert c in Fitting(local, order);
    FittingMember(local, order, c);
    FirstDecides(local, order);
    hide Fits, Tiebreak, Accepts, Fitting;
    ReorderedMembers(local, order, scored);
  }

  lemma {:induction false} FreeIsAlike(local: Local, scored: seq<Scored>)
    requires OrderFree(local, scored)
    ensures AcceptedAlike(local, scored)
  {
    hide Fits, Accepts, Reordered, OrderFree;
    forall first, second | Reordered(first, scored) && Reordered(second, scored) && Tiebreak(local, first).Some?
      ensures Tiebreak(local, second).Some?
    {
      AcceptedFirst(local, scored, first);
      var c := Fitting(local, first)[0];
      AllAcceptIff(local, scored, c);
      assert Fitting(local, second) != [] by {
        ReorderedMembers(local, second, scored);
        FittingMember(local, second, c);
      }
      AcceptedFirst(local, scored, second);
    }
  }

  lemma {:induction false} AcceptedIdentity(local: Local, scored: seq<Scored>, first: seq<Scored>, second: seq<Scored>)
    requires Reordered(first, scored) && Reordered(second, scored)
    requires Tiebreak(local, first).Some? && Tiebreak(local, second).Some?
    ensures SameIdentity(local, Tiebreak(local, first).value, Tiebreak(local, second).value)
  {
    AcceptedFirst(local, scored, first);
    AcceptedFirst(local, scored, second);
    hide Fits, Tiebreak, Fitting, Reordered, AlignedRecordings, SamePositions, SameAs;
    SameAsBothWays(AlignedRecordings(local, Tiebreak(local, first).value.release),
                   AlignedRecordings(local, Tiebreak(local, second).value.release));
  }

  lemma {:induction false} NamedIsFree(local: Local, scored: seq<Scored>)
    requires FittingNamed(local, scored)
    ensures OrderFree(local, scored)
  {
    if b :| b in scored && Fits(local, b) && Accepts(local, scored, b) {
      var order := ListedFirst(local, scored, b);
      hide Fits, Accepts, Tiebreak, RecordingsNamed;
      forall i | 0 <= i < |order| && Fits(local, order[i])
        ensures RecordingsNamed(order[i].release)
      {
        assert order[i] in multiset(order);
        var k :| 0 <= k < |scored| && scored[k] == order[i];
      }
      TiebreakAcceptsAgreement(local, order);
      ReorderedMembers(local, order, scored);
      hide AlignedRecordings;
      assert Agree(local, order);
      forall c, d | c in scored && d in scored && Fits(local, c) && Fits(local, d)
        ensures SamePositions(AlignedRecordings(local, c.release), AlignedRecordings(local, d.release))
      {
        assert Equivalent(local, c, d);
      }
    }
  }

  // ---------------------------------------------------------------------
  // Without recording ids

  /** Two alignments of the same size: the first has an unnamed recording where the second has
      none at all. */
  const UNNAMED: Alignment := map[(1, 1) := "", (1, 2) := "x"]
  const NAMED: Alignment := map[(1, 2) := "x", (1, 3) := "y"]

  function Edition(first: CandidateTrack, second: CandidateTrack): Release {
    Release("", 1, Some(2000), [Credit(1, "")], "g", [Medium(1, 0, [first, second, CandidateTrack(9, "z", 9, 0)])])
  }

  function Threesome(): Local {
    Local(1, {1}, {}, 2000, 3, [LocalTrack(1, 1, 1, 0), LocalTrack(1, 2, 2, 0), LocalTrack(1, 3, 3, 0)])
  }

  /** The edition with an unnamed first recording, and the one without a first track. */
  function FirstUnnamed(): Release {
    Edition(CandidateTrack(1, "", 1, 0), CandidateTrack(2, "x", 2, 0))
  }

  function NoFirst(): Release {
    Edition(CandidateTrack(2, "x", 2, 0), CandidateTrack(3, "y", 3, 0))
  }

  function Listed(r: Release): Scored {
    Scored(r, Score(Threesome(), r), EvidenceOf(Threesome(), r))
  }

  /** A medium of three tracks, slot by slot. */
  lemma {:induction false} ThreeSlots(m: Medium)
    requires |m.tracks| == 3
    ensures var d := DiscNumber(m.position);
            Slots([m]) == [Slot(d, m.tracks[0]), Slot(d, m.tracks[1]), Slot(d, m.tracks[2])]
    ensures Total([m]) == 3
  {
    var one := [m];
    assert one[..|one| - 1] == [] && Slots(one[..|one| - 1]) == [] && Total(one[..|one| - 1]) == 0;
  }

  lemma {:induction false} HitsOfThree(kind: Kind, slots: seq<Slot>, locals: seq<LocalTrack>)
    requires |slots| == 3
    ensures Hits(kind, slots, locals) == Row(kind, slots[0], locals) + Row(kind, slots[1], locals) + Row(kind, slots[2], locals)
  {
    var two := slots[..2];
    var one := two[..1];
    assert one[..0] == [] && two[1] == slots[1] && one[0] == slots[0];
    assert Hits(kind, one[..0], locals) == 0;
    assert Hits(kind, one, locals) == Row(kind, slots[0], locals);
    assert Hits(kind, two, locals) == Hits(kind, two[..1], locals) + Row(kind, slots[1], locals);
  }

  lemma {:induction false} RowOfThree(kind: Kind, s: Slot, locals: seq<LocalTrack>)
    requires |locals| == 3
    ensures Row(kind, s, locals) == Bit(Hit(kind, s, locals[0])) + Bit(Hit(kind, s, locals[1])) + Bit(Hit(kind, s, locals[2]))
  {
    var two := locals[..2];
    var one := two[..1];
    assert one[..0] == [] && two[1] == locals[1] && one[0] == locals[0];
    assert Row(kind, s, one[..0]) == 0;
    assert Row(kind, s, one) == Bit(Hit(kind, s, locals[0]));
    assert Row(kind, s, two) == Row(kind, s, two[..1]) + Bit(Hit(kind, s, locals[1]));
  }

  lemma {:induction false} AlignedOfThree(local: Local, slots: seq<Slot>)
    requires |slots| == 3 && OnLocal(local, slots[0]) && OnLocal(local, slots[1]) && !OnLocal(local, slots[2])
    ensures AlignedIn(local, slots) == map[(slots[0].disc, slots[0].track.position) := slots[0].track.recording]
                                         [(slots[1].disc, slots[1].track.position) := slots[1].track.recording]
  {
    hide OnLocal;
    var two := slots[..2];
    var one := two[..1];
    assert one[..0] == [] && two[1] == slots[1] && one[0] == slots[0];
    assert AlignedIn(local, one[..0]) == map[];
    assert AlignedIn(local, one) == map[(slots[0].disc, slots[0].track.position) := slots[0].track.recording];
    assert AlignedIn(local, two) == AlignedIn(local, two[..1])[(slots[1].disc, slots[1].track.position) := slots[1].track.recording];
  }

  lemma {:induction false} HitsCounted(kind: Kind, slots: seq<Slot>)
    requires |slots| == 3
    ensures var lts := Threesome().tracks;
            Hits(kind, slots, lts) ==
              Bit(Hit(kind, slots[0], lts[0])) + Bit(Hit(kind, slots[0], lts[1])) + Bit(Hit(kind, slots[0], lts[2]))
            + Bit(Hit(kind, slots[1], lts[0])) + Bit(Hit(kind, slots[1], lts[1])) + Bit(Hit(kind, slots[1], lts[2]))
            + Bit(Hit(kind, slots[2], lts[0])) + Bit(Hit(kind, slots[2], lts[1])) + Bit(Hit(kind, slots[2], lts[2]))
  {
    var lts := Threesome().tracks;
    HitsOfThree(kind, slots, lts);
    RowOfThree(kind, slots[0], lts);
    RowOfThree(kind, slots[1], lts);
    RowOfThree(kind, slots[2], lts);
    hide Hits, Row, Hit;
  }

  /** Either edition fits: it scores well over 80, with two of three tracks in place. */
  lemma {:induction false} EditionFits(first: CandidateTrack, second: CandidateTrack)
    requires 1 <= first.position < second.position <= 3 && first.title == first.position && second.title == second.position
    ensures Fits(Threesome(), Listed(Edition(first, second)))
  {
    var local, r := Threesome(), Edition(first, second);
    var m := r.media[0];
    ThreeSlots(m);
    var slots := Slots(r.media);
    HitsCounted(Positions, slots);
    HitsCounted(Titles, slots);
    assert CreditMatches(local, r.credits[0]);
    hide Hits, Slots, Total;
    var e := EvidenceOf(local, r);
    assert e.title && e.artist && e.year && e.trackCount && e.positions == 2 && e.titles == 2;
    assert 10.0 * e.durations as real / 3.0 >= 0.0;
  }

  lemma {:induction false} EditionAlignment(first: CandidateTrack, second: CandidateTrack)
    requires 1 <= first.position < second.position <= 3
    ensures AlignedRecordings(Threesome(), Edition(first, second)) ==
            map[(1, first.position) := first.recording][(1, second.position) := second.recording]
  {
    var local, r := Threesome(), Edition(first, second);
    ThreeSlots(r.media[0]);
    var slots := Slots(r.media);
    assert Aligned(slots[0], local.tracks[first.position - 1]);
    assert Aligned(slots[1], local.tracks[second.position - 1]);
    AlignedOfThree(local, slots);
  }

  lemma {:induction false} FittingTwo(local: Local, c: Scored, d: Scored)
    requires Fits(local, c) && Fits(local, d)
    ensures Fitting(local, [c, d]) == [c, d]
  {
    hide Fits;
    var both := [c, d];
    assert both[..1] == [c] && [c][..0] == [];
    assert Fitting(local, [c][..0]) == [];
    assert Fitting(local, [c]) == [c];
  }

  /** An unnamed recording makes the order matter: listed first, the edition with the unnamed
      recording is accepted; listed second, it is compared as a missing position, and both are
      rejected. */
  lemma {:induction false} UnnamedRecordingsDependOnOrder()
    ensures var a, b := Listed(FirstUnnamed()), Listed(NoFirst());
            Tiebreak(Threesome(), [a, b]) == Some(a) && Tiebreak(Threesome(), [b, a]) == None
  {
    var local, a, b := Threesome(), Listed(FirstUnnamed()), Listed(NoFirst());
    EditionFits(CandidateTrack(1, "", 1, 0), CandidateTrack(2, "x", 2, 0));
    EditionFits(CandidateTrack(2, "x", 2, 0), CandidateTrack(3, "y", 3, 0));
    FittingTwo(local, a, b);
    FittingTwo(local, b, a);
    EditionAlignment(CandidateTrack(1, "", 1, 0), CandidateTrack(2, "x", 2, 0));
    EditionAlignment(CandidateTrack(2, "x", 2, 0), CandidateTrack(3, "y", 3, 0));
    assert AlignedRecordings(local, a.release) == UNNAMED && AlignedRecordings(local, b.release) == NAMED;
    hide Fits, Fitting, AlignedRecordings, EvidenceOf, Score, Slots;
    assert At(UNNAMED, (1, 3)) != NAMED[(1, 3)];
    assert |UNNAMED| == 2 && |NAMED| == 2;
    assert SameAs(UNNAMED, NAMED) && !SameAs(NAMED, UNNAMED);
    TiebreakOfTwo(local, a, b);
    TiebreakOfTwo(local, b, a);
  }

  lemma {:induction false} TiebreakOfTwo(local: Local, c: Scored, d: Scored)
    requires Fitting(local, [c, d]) == [c, d] && c.release.group == d.release.group && c.release.group != ""
    ensures Tiebreak(local, [c, d]) ==
            if SameAs(AlignedRecordings(local, c.release), AlignedRecordings(local, d.release)) then Some(c) else None
  {
    hide Fitting, AlignedRecordings, SameAs;
    var fitting := Fitting(local, [c, d]);
    assert fitting[1] == d;
  }

  // ---------------------------------------------------------------------
  // The loops

  method Align(local: Local, r: Release) returns (out: Alignment)
    ensures out == AlignedRecordings(local, r)
  {
    out := map[];
    var i := 0;
    while i < |r.media|
      invariant 0 <= i <= |r.media| && out == AlignedIn(local, Slots(r.media[..i]))
    {
      assert r.media[..i + 1][..i] == r.media[..i];
      var m := r.media[i];
      ghost var before := Slots(r.media[..i]);
      assert before + SlotsOf(m)[..0] == before;
      var k := 0;
      while k < |m.tracks|
        invariant 0 <= k <= |m.tracks| && out == AlignedIn(local, before + SlotsOf(m)[..k])
      {
        var s := Slot(DiscNumber(m.position), m.tracks[k]);
        ghost var longer := before + SlotsOf(m)[..k + 1];
        assert longer[..|longer| - 1] == before + SlotsOf(m)[..k] && longer[|longer| - 1] == s;
        var on := false;
        var j := 0;
        while j < |local.tracks|
          invariant 0 <= j <= |local.tracks|
          invariant on <==> exists l :: 0 <= l < j && Aligned(s, local.tracks[l])
        {
          if Aligned(s, local.tracks[j]) {
            on := true;
          }
          j := j + 1;
        }
        if on {
          out := out[(s.disc, s.track.position) := s.track.recording];
        }
        k := k + 1;
      }
      assert SlotsOf(m)[..|m.tracks|] == SlotsOf(m);
      i := i + 1;
    }
    assert r.media[..|r.media|] == r.media;
  }

  /** editionTiebreak. */
  method ChooseEdition(local: Local, scored: seq<Scored>) returns (chosen: Option<Scored>)
    ensures chosen == Tiebreak(local, scored)
  {
    var fitting := [];
    var i := 0;
    while i < |scored|
      invariant 0 <= i <= |scored| && fitting == Fitting(local, scored[..i])
    {
      assert scored[..i + 1][..i] == scored[..i];
      if Fits(local, scored[i]) {
        fitting := fitting + [scored[i]];
      }
      i := i + 1;
    }
    assert scored[..|scored|] == scored;
    hide Fits, Fitting, AlignedRecordings, SameAs;
    if |fitting| == 0 || fitting[0].release.group == "" {
      return None;
    }
    var k := 1;
    while k < |fitting|
      invariant 1 <= k <= |fitting|
      invariant forall l :: 0 <= l < k ==> fitting[l].release.group == fitting[0].release.group
    {
      if fitting[k].release.group != fitting[0].release.group {
        return None;
      }
      k := k + 1;
    }
    var reference := Align(local, fitting[0].release);
    k := 1;
    while k < |fitting|
      invariant 1 <= k <= |fitting|
      invariant forall l :: 0 < l < k ==> SameAs(reference, AlignedRecordings(local, fitting[l].release))
    {
      var other := Align(local, fitting[k].release);
      if !SameAs(reference, other) {
        return None;
      }
      k := k + 1;
    }
    return Some(fitting[0]);
  }
}
