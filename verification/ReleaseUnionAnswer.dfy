/** What matchReleaseUnion answers, said without its passes: which release track each local
    track gets, in terms of titles, durations, disc numbers and indices alone. */
module ReleaseUnionAnswer {
  import opened Common
  import opened ReleaseUnion

  // ---------------------------------------------------------------------
  // The answer

  /** A position. A disc that is not given is the first. */
  function Spot(disc: int, index: int): Slot {
    Slot(if disc <= 0 then 1 else disc, index)
  }

  /** Unknown durations are near all others. */
  predicate Near(a: int, b: int) {
    a == 0 || b == 0 || -3000 < a - b < 3000
  }

  predicate Taken(tracks: seq<CanonicalTrack>, at: Slot) {
    exists c :: c in tracks && Spot(c.disc, c.index) == at
  }

  /** Distinct positions that are 1..k on every disc. */
  predicate Complete(tracks: seq<CanonicalTrack>) {
    && (forall c :: c in tracks ==> c.index > 0)
    && (forall i, j :: 0 <= i < j < |tracks| ==>
          Spot(tracks[i].disc, tracks[i].index) != Spot(tracks[j].disc, tracks[j].index))
    && (forall c, p :: c in tracks && 1 <= p < c.index ==> Taken(tracks, Spot(c.disc, p)))
  }

  /** Distinct tracks on distinct positions of the release. */
  predicate Fitting(local: seq<LocalTrack>, tracks: seq<CanonicalTrack>) {
    && (forall t :: t in local ==> t.index > 0 && Taken(tracks, Spot(t.disc, t.index)))
    && (forall i, j :: 0 <= i < j < |local| ==>
          local[i].id != local[j].id && Spot(local[i].disc, local[i].index) != Spot(local[j].disc, local[j].index))
  }

  /** The release, or the track at its position, says that the track is where it belongs. */
  predicate Settled(norm: Title, release: Release, t: LocalTrack) {
    release.authoritative ||
    exists c :: c in release.tracks && Spot(c.disc, c.index) == Spot(t.disc, t.index) &&
                (norm(t.title) == norm(c.title) || Near(t.durationMs, c.durationMs))
  }

  predicate Moves(t: LocalTrack, m: Matches)
    requires t.id in m
  {
    Spot(m[t.id].disc, m[t.id].index) != Spot(t.disc, t.index)
  }

  /** Track i could move to c: it has c's title and duration, and neither a settled track
      nor an earlier one that moved is there. */
  predicate Open(norm: Title, local: seq<LocalTrack>, release: Release, m: Matches, i: nat, c: CanonicalTrack)
    requires i < |local| && m.Keys == Ids(local)
  {
    && c in release.tracks
    && norm(local[i].title) == norm(c.title) && Near(local[i].durationMs, c.durationMs)
    && (forall t :: t in local && Settled(norm, release, t) ==> Spot(t.disc, t.index) != Spot(c.disc, c.index))
    && (forall j :: 0 <= j < i && Moves(local[j], m) ==>
          Spot(m[local[j].id].disc, m[local[j].id].index) != Spot(c.disc, c.index))
  }

  ghost predicate Sole(norm: Title, local: seq<LocalTrack>, release: Release, m: Matches, i: nat, c: CanonicalTrack)
    requires i < |local| && m.Keys == Ids(local)
  {
    Open(norm, local, release, m, i, c) && forall d :: Open(norm, local, release, m, i, d) ==> d == c
  }

  /** A track that is not settled moves when it could move to exactly one place; every other keeps its own. */
  ghost predicate Follows(norm: Title, local: seq<LocalTrack>, release: Release, m: Matches, i: nat)
    requires i < |local| && m.Keys == Ids(local)
  {
    if !Settled(norm, release, local[i]) && exists c :: Sole(norm, local, release, m, i, c) then
      Sole(norm, local, release, m, i, m[local[i].id])
    else
      m[local[i].id] in release.tracks && !Moves(local[i], m)
  }

  /** The unsettled tracks that stay all the same. */
  function Unresolved(norm: Title, local: seq<LocalTrack>, release: Release, m: Matches): set<LocalTrack>
    requires m.Keys == Ids(local)
  {
    set t | t in local && !Settled(norm, release, t) && !Moves(t, m)
  }

  ghost predicate IsAnswer(norm: Title, local: seq<LocalTrack>, release: Release, m: Matches) {
    && local != [] && |local| == |release.tracks| && Complete(release.tracks) && Fitting(local, release.tracks)
    && m.Keys == Ids(local)
    && (forall i :: 0 <= i < |local| ==> Follows(norm, local, release, m, i))
    && OneEach(local, m)
    && 5 * |Unresolved(norm, local, release, m)| <= |local|
  }

  predicate OneEach(local: seq<LocalTrack>, m: Matches)
    requires m.Keys == Ids(local)
  {
    forall t, u :: t in local && u in local && t.id != u.id ==>
      Spot(m[t.id].disc, m[t.id].index) != Spot(m[u.id].disc, m[u.id].index)
  }

  // ---------------------------------------------------------------------
  // The shapes

  lemma ShapeAgrees(local: seq<LocalTrack>, tracks: seq<CanonicalTrack>)
    ensures Complete(tracks) <==> Layout(tracks).Some? && Contiguous(Layout(tracks).value.Keys)
    ensures Complete(tracks) ==>
              (Fitting(local, tracks) <==> Seated(local, Layout(tracks).value) && DistinctIds(local))
    ensures Layout(tracks).Some? ==> OnBoard(tracks, Layout(tracks).value)
  {
    LayoutIff(tracks);
    if Layout(tracks).Some? {
      var board := Layout(tracks).value;
      TracksOnBoard(tracks);
      CompleteBoard(tracks, board);
      SeatedBoard(local, tracks, board);
    }
  }

  /** The board holds exactly the release's tracks, each at its position. */
  ghost predicate OnBoard(tracks: seq<CanonicalTrack>, board: Board) {
    && (forall k :: k in board ==> board[k] in tracks && Place(board[k]) == k && k.index > 0)
    && (forall c :: c in tracks ==> Place(c) in board && board[Place(c)] == c)
  }

  predicate Apart(tracks: seq<CanonicalTrack>) {
    && (forall c :: c in tracks ==> c.index > 0)
    && (forall i, j :: 0 <= i < j < |tracks| ==> Place(tracks[i]) != Place(tracks[j]))
  }

  lemma ApartAppend(prefix: seq<CanonicalTrack>, c: CanonicalTrack)
    ensures Apart(prefix + [c]) <==> Apart(prefix) && c.index > 0 && Place(c) !in Places(prefix)
  {
    var tracks := prefix + [c];
    assert forall i :: 0 <= i < |prefix| ==> tracks[i] == prefix[i] && prefix[i] in prefix;
    if Place(c) in Places(prefix) {
      var d :| d in prefix && Place(d) == Place(c);
      var i :| 0 <= i < |prefix| && prefix[i] == d;
      assert Place(tracks[i]) == Place(tracks[|prefix|]);
    }
    if Apart(tracks) {
      forall d | d in prefix ensures d in tracks {}
    }
  }

  lemma {:induction false} LayoutIff(tracks: seq<CanonicalTrack>)
    ensures Layout(tracks).Some? <==> Apart(tracks)
  {
    if tracks != [] {
      var prefix, c := tracks[..|tracks| - 1], tracks[|tracks| - 1];
      assert tracks == prefix + [c];
      LayoutIff(prefix);
      ApartAppend(prefix, c);
      hide Apart, Places;
      if Layout(prefix).Some? {
        LayoutPlaces(prefix);
      }
    }
  }

  lemma TracksOnBoard(tracks: seq<CanonicalTrack>)
    requires Layout(tracks).Some?
    ensures OnBoard(tracks, Layout(tracks).value)
  {
    var board := Layout(tracks).value;
    LayoutPlaces(tracks);
    LayoutIff(tracks);
    hide Layout;
    forall c | c in tracks
      ensures Place(c) in board && board[Place(c)] == c
    {
      assert Place(c) in Places(tracks);
      var d := board[Place(c)];
      assert d in tracks && Place(d) == Place(c);
      var i :| 0 <= i < |tracks| && tracks[i] == c;
      var j :| 0 <= j < |tracks| && tracks[j] == d;
    }
  }

  lemma CompleteBoard(tracks: seq<CanonicalTrack>, board: Board)
    requires OnBoard(tracks, board) && Apart(tracks)
    ensures Complete(tracks) <==> Contiguous(board.Keys)
  {
    forall at
      ensures Taken(tracks, at) <==> at in board
    {
      if at in board {
        assert board[at] in tracks && Place(board[at]) == at;
      }
    }
    hide Taken;
    if Complete(tracks) {
      forall k, p | k in board && 1 <= p <= k.index
        ensures Slot(k.disc, p) in board
      {
        var c := board[k];
        if p < k.index {
          assert Taken(tracks, Spot(c.disc, p));
        }
      }
    }
    if Contiguous(board.Keys) {
      forall c, p | c in tracks && 1 <= p < c.index
        ensures Taken(tracks, Spot(c.disc, p))
      {
        assert Place(c) in board.Keys;
        assert Slot(Place(c).disc, p) in board.Keys;
      }
    }
  }

  lemma SeatedBoard(local: seq<LocalTrack>, tracks: seq<CanonicalTrack>, board: Board)
    requires OnBoard(tracks, board)
    ensures Fitting(local, tracks) <==> Seated(local, board) && DistinctIds(local)
  {
    forall t | t in local
      ensures Taken(tracks, Spot(t.disc, t.index)) <==> Own(t) in board
    {
      if Own(t) in board {
        assert board[Own(t)] in tracks;
      }
    }
  }

  // ---------------------------------------------------------------------
  // The passes, track by track

  predicate InOrder(local: seq<LocalTrack>, board: Board) {
    forall t :: t in local ==> Own(t) in board
  }

  predicate Stays(norm: Title, auth: bool, board: Board, t: LocalTrack)
    requires Own(t) in board
  {
    InPlace(norm, auth, t, board[Own(t)])
  }

  lemma SettledStays(norm: Title, release: Release, board: Board, t: LocalTrack)
    requires OnBoard(release.tracks, board) && Own(t) in board
    ensures Settled(norm, release, t) <==> Stays(norm, release.authoritative, board, t)
  {
    var c := board[Own(t)];
    assert c in release.tracks && Spot(c.disc, c.index) == Spot(t.disc, t.index);
    forall d | d in release.tracks && Spot(d.disc, d.index) == Spot(t.disc, t.index)
      ensures d == c
    {
      assert Place(d) == Own(t);
    }
  }

  /** What the second pass has made of the first n local tracks. */
  ghost function Stage(norm: Title, auth: bool, local: seq<LocalTrack>, board: Board, n: nat): Progress
    requires n <= |local| && InOrder(local, board)
  {
    SecondPass(norm, FirstPass(norm, auth, local[..n], board).rest, board, FirstPass(norm, auth, local, board))
  }

  lemma StageStep(norm: Title, auth: bool, local: seq<LocalTrack>, board: Board, n: nat)
    requires n < |local| && InOrder(local, board)
    ensures var p, t := Stage(norm, auth, local, board, n), local[n];
            var open := Openings(norm, t, board, p.used);
            Stage(norm, auth, local, board, n + 1) ==
            if Stays(norm, auth, board, t) then p
            else if |open| == 1 then Progress(p.matched[t.id := board[Only(open)]], p.used + {Only(open)}, p.rest)
            else p.(rest := p.rest + [t])
  {
    hide Openings, InPlace;
    var t := local[n];
    var rest := FirstPass(norm, auth, local[..n], board).rest;
    assert local[..n + 1][..n] == local[..n];
    assert FirstPass(norm, auth, local[..n + 1], board).rest == if Stays(norm, auth, board, t) then rest else rest + [t];
    assert (rest + [t])[..|rest|] == rest;
  }

  /** The first pass matches the tracks that stay, each to its own position. */
  ghost predicate Started(norm: Title, auth: bool, local: seq<LocalTrack>, board: Board, p: Progress)
    requires InOrder(local, board)
  {
    && (forall t :: t in local && Stays(norm, auth, board, t) ==> t.id in p.matched && p.matched[t.id] == board[Own(t)])
    && (forall id :: id in p.matched ==> exists t :: t in local && Stays(norm, auth, board, t) && t.id == id)
    && (forall k :: k in p.used <==> exists t :: t in local && Stays(norm, auth, board, t) && Own(t) == k)
  }

  lemma {:induction false} FirstPassStarts(norm: Title, auth: bool, local: seq<LocalTrack>, board: Board)
    requires DistinctIds(local) && InOrder(local, board)
    ensures Started(norm, auth, local, board, FirstPass(norm, auth, local, board))
  {
    if local != [] {
      var prefix, t := local[..|local| - 1], local[|local| - 1];
      assert local == prefix + [t];
      FirstPassStarts(norm, auth, prefix, board);
      hide InPlace, Own;
      var p := FirstPass(norm, auth, prefix, board);
      forall u | u in prefix ensures u.id != t.id {
        var i :| 0 <= i < |prefix| && prefix[i] == u;
        assert local[i] == u && local[|prefix|] == t;
      }
      StartOneMore(norm, auth, prefix, t, board, p);
    }
  }

  lemma StartOneMore(norm: Title, auth: bool, prefix: seq<LocalTrack>, t: LocalTrack, board: Board, p: Progress)
    requires InOrder(prefix + [t], board) && (forall u :: u in prefix ==> u.id != t.id)
    requires InOrder(prefix, board) && Started(norm, auth, prefix, board, p)
    ensures !Stays(norm, auth, board, t) ==> Started(norm, auth, prefix + [t], board, p.(rest := p.rest + [t]))
    ensures Stays(norm, auth, board, t) ==>
              Started(norm, auth, prefix + [t], board, Progress(p.matched[t.id := board[Own(t)]], p.used + {Own(t)}, p.rest))
  {
    hide Stays, Own;
    var local := prefix + [t];
    assert t in local && forall u :: u in prefix ==> u in local;
    assert forall u :: u in local ==> u in prefix || u == t;
  }

  /** The answer m agrees with what the passes have made of the first n tracks. */
  ghost predicate Tallies(norm: Title, auth: bool, local: seq<LocalTrack>, board: Board, m: Matches, p: Progress, n: nat)
    requires InOrder(local, board) && n <= |local| && m.Keys == Ids(local)
  {
    && Recorded(norm, auth, local, board, m, p.matched, n)
    && (forall k :: k in p.used <==> Occupied(norm, auth, local, board, m, n, k))
  }

  predicate Recorded(norm: Title, auth: bool, local: seq<LocalTrack>, board: Board, m: Matches, matched: Matches, n: nat)
    requires InOrder(local, board) && n <= |local| && m.Keys == Ids(local)
  {
    && matched.Keys <= m.Keys
    && (forall t :: t in local && Stays(norm, auth, board, t) ==> t.id in matched && matched[t.id] == board[Own(t)])
    && (forall j :: 0 <= j < n ==> Gives(board, matched, m, local[j]))
    && (forall j :: 0 <= j < n && !Stays(norm, auth, board, local[j]) ==>
          (local[j].id in matched <==> Place(m[local[j].id]) != Own(local[j])))
    && (forall j :: n <= j < |local| && !Stays(norm, auth, board, local[j]) ==> local[j].id !in matched)
  }

  /** The passes gave t what m says, or left it and m has it at its own position. */
  predicate Gives(board: Board, matched: Matches, m: Matches, t: LocalTrack)
    requires t.id in m && Own(t) in board
  {
    m[t.id] == if t.id in matched then matched[t.id] else board[Own(t)]
  }

  /** A settled track is at k, or one of the first n moved there. */
  ghost predicate Occupied(norm: Title, auth: bool, local: seq<LocalTrack>, board: Board, m: Matches, n: nat, k: Slot)
    requires InOrder(local, board) && n <= |local| && m.Keys == Ids(local)
  {
    || (exists t :: t in local && Stays(norm, auth, board, t) && Own(t) == k)
    || (exists j :: 0 <= j < n && Place(m[local[j].id]) != Own(local[j]) && Place(m[local[j].id]) == k)
  }

  lemma TalliesAtFirst(norm: Title, auth: bool, local: seq<LocalTrack>, board: Board, m: Matches)
    requires DistinctIds(local) && InOrder(local, board) && m.Keys == Ids(local)
    ensures Tallies(norm, auth, local, board, m, Stage(norm, auth, local, board, 0), 0)
  {
    FirstPassStarts(norm, auth, local, board);
    assert local[..0] == [];
    TalliesFromStart(norm, auth, local, board, m, FirstPass(norm, auth, local, board));
    hide Tallies, Started;
  }

  lemma TalliesFromStart(norm: Title, auth: bool, local: seq<LocalTrack>, board: Board, m: Matches, p: Progress)
    requires DistinctIds(local) && InOrder(local, board) && m.Keys == Ids(local) && Started(norm, auth, local, board, p)
    ensures Tallies(norm, auth, local, board, m, p.(rest := []), 0)
  {
    ById(local);
    hide Stays, Own, Place, DistinctIds;
    forall j | 0 <= j < |local| && !Stays(norm, auth, board, local[j])
      ensures local[j].id !in p.matched
    {
      assert local[j] in local;
    }
    forall id | id in p.matched ensures id in m.Keys {
      var t :| t in local && Stays(norm, auth, board, t) && t.id == id;
    }
  }

  /** The tracks in open positions are those that the next track could move to. */
  lemma OpenAgrees(norm: Title, local: seq<LocalTrack>, release: Release, board: Board, m: Matches, p: Progress, n: nat, k: Slot)
    requires OnBoard(release.tracks, board) && InOrder(local, board) && n < |local| && m.Keys == Ids(local)
    requires Tallies(norm, release.authoritative, local, board, m, p, n)
    requires k in board
    ensures k in Openings(norm, local[n], board, p.used) <==> Open(norm, local, release, m, n, board[k])
  {
    assert k in p.used <==> Occupied(norm, release.authoritative, local, board, m, n, k);
    hide Tallies, Stays, Settled;
    forall t | t in local
      ensures Settled(norm, release, t) <==> Stays(norm, release.authoritative, board, t)
    {
      SettledStays(norm, release, board, t);
    }
    var c := board[k];
    assert Spot(c.disc, c.index) == k;
    hide OnBoard;
  }

  /** The open positions as one set decide whether there is just one place to move to. */
  lemma SoleAgrees(norm: Title, local: seq<LocalTrack>, release: Release, board: Board, m: Matches, p: Progress, n: nat)
    requires OnBoard(release.tracks, board) && InOrder(local, board) && n < |local| && m.Keys == Ids(local)
    requires Tallies(norm, release.authoritative, local, board, m, p, n)
    ensures var open := Openings(norm, local[n], board, p.used);
            && (|open| == 1 ==> Only(open) in board && Sole(norm, local, release, m, n, board[Only(open)]))
            && (forall c :: Sole(norm, local, release, m, n, c) ==> |open| == 1 && c == board[Only(open)])
  {
    var open := Openings(norm, local[n], board, p.used);
    forall k | k in board
      ensures k in open <==> Open(norm, local, release, m, n, board[k])
    {
      OpenAgrees(norm, local, release, board, m, p, n, k);
    }
    assert forall k :: k in open ==> k in board;
    assert forall c :: Open(norm, local, release, m, n, c) ==> Place(c) in board && board[Place(c)] == c;
    hide Openings, Open, Tallies;
    if |open| == 1 {
      var k := Only(open);
      assert k in open;
      forall d | Open(norm, local, release, m, n, d) ensures d == board[k] {
        assert Place(d) in open;
      }
    }
    forall c | Sole(norm, local, release, m, n, c)
      ensures |open| == 1 && c == board[Only(open)]
    {
      forall k | k in open ensures k == Place(c) {
        assert board[k] == c;
      }
      assert open == {Place(c)};
    }
  }

  /** To follow the rule is to have what the passes give. */
  lemma FollowsIffGives(norm: Title, local: seq<LocalTrack>, release: Release, board: Board, m: Matches, n: nat)
    requires OnBoard(release.tracks, board) && InOrder(local, board) && n < |local| && m.Keys == Ids(local)
    requires Tallies(norm, release.authoritative, local, board, m, Stage(norm, release.authoritative, local, board, n), n)
    ensures Follows(norm, local, release, m, n) <==>
              Gives(board, Stage(norm, release.authoritative, local, board, n + 1).matched, m, local[n])
  {
    var t, auth := local[n], release.authoritative;
    var p := Stage(norm, auth, local, board, n);
    StageStep(norm, auth, local, board, n);
    SettledStays(norm, release, board, t);
    assert t.id !in p.matched || (Stays(norm, auth, board, t) && p.matched[t.id] == board[Own(t)]);
    assert m[t.id] in release.tracks && !Moves(t, m) <==> m[t.id] == board[Own(t)];
    if !Stays(norm, auth, board, t) {
      hide Sole, Openings, Settled, Stays, Stage, OnBoard, Moves, Own, Place, InOrder, Ids;
      SoleAgrees(norm, local, release, board, m, p, n);
      hide Tallies;
      assert forall c :: Sole(norm, local, release, m, n, c) ==> c == board[Only(Openings(norm, t, board, p.used))];
    }
  }

  lemma OccupiedOneMore(norm: Title, auth: bool, local: seq<LocalTrack>, board: Board, m: Matches, n: nat, k: Slot)
    requires InOrder(local, board) && n < |local| && m.Keys == Ids(local)
    ensures Occupied(norm, auth, local, board, m, n + 1, k) <==>
              Occupied(norm, auth, local, board, m, n, k) || (Place(m[local[n].id]) == k && k != Own(local[n]))
  {
    hide Stays, Own, Place;
    if Occupied(norm, auth, local, board, m, n, k) {
      if j :| 0 <= j < n && Place(m[local[j].id]) != Own(local[j]) && Place(m[local[j].id]) == k {
        assert Occupied(norm, auth, local, board, m, n + 1, k);
      }
    } else if Place(m[local[n].id]) == k && k != Own(local[n]) {
      assert Occupied(norm, auth, local, board, m, n + 1, k);
    }
  }

  lemma RecordedKept(norm: Title, auth: bool, local: seq<LocalTrack>, board: Board, m: Matches, matched: Matches, n: nat)
    requires InOrder(local, board) && n < |local| && m.Keys == Ids(local) && Place(board[Own(local[n])]) == Own(local[n])
    requires Recorded(norm, auth, local, board, m, matched, n) && Gives(board, matched, m, local[n])
    ensures Recorded(norm, auth, local, board, m, matched, n + 1) && Place(m[local[n].id]) == Own(local[n])
  {
    hide Stays, Own, Place;
    assert local[n] in local;
    assert m[local[n].id] == board[Own(local[n])];
  }

  lemma RecordedMoved(norm: Title, auth: bool, local: seq<LocalTrack>, board: Board, m: Matches, matched: Matches, n: nat, k: Slot)
    requires InOrder(local, board) && n < |local| && m.Keys == Ids(local) && DistinctIds(local)
    requires Recorded(norm, auth, local, board, m, matched, n) && !Stays(norm, auth, board, local[n])
    requires k in board && Place(board[k]) == k && k != Own(local[n]) && m[local[n].id] == board[k]
    ensures Recorded(norm, auth, local, board, m, matched[local[n].id := board[k]], n + 1)
  {
    assert forall j :: 0 <= j < |local| && j != n ==> local[j].id != local[n].id;
    hide Stays, Own, Place, DistinctIds;
    forall t | t in local && t.id == local[n].id ensures t == local[n] {
      var j :| 0 <= j < |local| && local[j] == t;
    }
    assert local[n].id in Ids(local);
  }

  lemma OccupiedNext(norm: Title, auth: bool, local: seq<LocalTrack>, board: Board, m: Matches, n: nat, p: Progress, q: Progress)
    requires InOrder(local, board) && n < |local| && m.Keys == Ids(local)
    requires forall k :: k in p.used <==> Occupied(norm, auth, local, board, m, n, k)
    requires q.used == if Place(m[local[n].id]) == Own(local[n]) then p.used else p.used + {Place(m[local[n].id])}
    ensures forall k :: k in q.used <==> Occupied(norm, auth, local, board, m, n + 1, k)
  {
    forall k
      ensures k in q.used <==> Occupied(norm, auth, local, board, m, n + 1, k)
    {
      OccupiedOneMore(norm, auth, local, board, m, n, k);
      hide Occupied, Own, Place;
    }
  }

  lemma TalliesMoved(norm: Title, auth: bool, local: seq<LocalTrack>, board: Board, m: Matches, n: nat,
                     p: Progress, open: set<Slot>, q: Progress)
    requires InOrder(local, board) && n < |local| && m.Keys == Ids(local) && DistinctIds(local)
    requires Tallies(norm, auth, local, board, m, p, n) && !Stays(norm, auth, board, local[n])
    requires (forall k :: k in board ==> Place(board[k]) == k) && open == Openings(norm, local[n], board, p.used) && |open| == 1
    requires q.matched == p.matched[local[n].id := board[Only(open)]] && q.used == p.used + {Only(open)}
    requires Gives(board, q.matched, m, local[n])
    ensures Tallies(norm, auth, local, board, m, q, n + 1)
  {
    var k := Only(open);
    assert k in open;
    assert k != Own(local[n]) && m[local[n].id] == board[k];
    hide Recorded, DistinctIds, InOrder, Occupied, Stays, Openings, Own, Place;
    RecordedMoved(norm, auth, local, board, m, p.matched, n, k);
    OccupiedNext(norm, auth, local, board, m, n, p, q);
  }

  lemma TalliesKept(norm: Title, auth: bool, local: seq<LocalTrack>, board: Board, m: Matches, n: nat, p: Progress, q: Progress)
    requires InOrder(local, board) && n < |local| && m.Keys == Ids(local)
    requires Tallies(norm, auth, local, board, m, p, n)
    requires (forall k :: k in board ==> Place(board[k]) == k) && q.matched == p.matched && q.used == p.used
    requires Gives(board, q.matched, m, local[n])
    ensures Tallies(norm, auth, local, board, m, q, n + 1)
  {
    assert Place(board[Own(local[n])]) == Own(local[n]);
    hide Recorded, InOrder, Occupied, Stays, Own, Place, Gives;
    RecordedKept(norm, auth, local, board, m, p.matched, n);
    OccupiedNext(norm, auth, local, board, m, n, p, q);
  }

  lemma TalliesOneMore(norm: Title, local: seq<LocalTrack>, release: Release, board: Board, m: Matches, n: nat)
    requires OnBoard(release.tracks, board) && InOrder(local, board) && DistinctIds(local) && n < |local| && m.Keys == Ids(local)
    requires Tallies(norm, release.authoritative, local, board, m, Stage(norm, release.authoritative, local, board, n), n)
    requires Gives(board, Stage(norm, release.authoritative, local, board, n + 1).matched, m, local[n])
    ensures Tallies(norm, release.authoritative, local, board, m, Stage(norm, release.authoritative, local, board, n + 1), n + 1)
  {
    var t, auth := local[n], release.authoritative;
    var p, q := Stage(norm, auth, local, board, n), Stage(norm, auth, local, board, n + 1);
    StageStep(norm, auth, local, board, n);
    var open := Openings(norm, t, board, p.used);
    hide Tallies, Stage, DistinctIds, InOrder, Stays, Openings, Gives, Own, Place;
    if !Stays(norm, auth, board, t) && |open| == 1 {
      TalliesMoved(norm, auth, local, board, m, n, p, open, q);
    } else {
      TalliesKept(norm, auth, local, board, m, n, p, q);
    }
  }

  /** What an earlier track was given, no later one changes. */
  lemma {:induction false} StageKeeps(norm: Title, auth: bool, local: seq<LocalTrack>, board: Board, j: nat, n: nat)
    requires j < n <= |local| && InOrder(local, board) && DistinctIds(local)
    ensures var p, q := Stage(norm, auth, local, board, j + 1).matched, Stage(norm, auth, local, board, n).matched;
            && (local[j].id in p <==> local[j].id in q)
            && (local[j].id in p ==> p[local[j].id] == q[local[j].id])
  {
    hide Stage;
    if j + 1 < n {
      StageKeeps(norm, auth, local, board, j, n - 1);
      StageStep(norm, auth, local, board, n - 1);
    }
  }

  ghost predicate AllGiven(norm: Title, auth: bool, local: seq<LocalTrack>, board: Board, m: Matches)
    requires InOrder(local, board) && m.Keys == Ids(local)
  {
    forall i :: 0 <= i < |local| ==> Gives(board, Stage(norm, auth, local, board, |local|).matched, m, local[i])
  }

  ghost predicate AllFollow(norm: Title, local: seq<LocalTrack>, release: Release, m: Matches, n: nat)
    requires n <= |local| && m.Keys == Ids(local)
  {
    forall i :: 0 <= i < n ==> Follows(norm, local, release, m, i)
  }

  lemma {:induction false} FollowedTallies(norm: Title, local: seq<LocalTrack>, release: Release, board: Board, m: Matches, n: nat)
    requires OnBoard(release.tracks, board) && InOrder(local, board) && DistinctIds(local) && n <= |local| && m.Keys == Ids(local)
    requires AllFollow(norm, local, release, m, n)
    ensures Tallies(norm, release.authoritative, local, board, m, Stage(norm, release.authoritative, local, board, n), n)
  {
    hide Stage, Tallies, Follows, Gives;
    if n == 0 {
      TalliesAtFirst(norm, release.authoritative, local, board, m);
    } else {
      FollowedTallies(norm, local, release, board, m, n - 1);
      FollowsIffGives(norm, local, release, board, m, n - 1);
      TalliesOneMore(norm, local, release, board, m, n - 1);
    }
  }

  lemma {:induction false} GivenFollows(norm: Title, local: seq<LocalTrack>, release: Release, board: Board, m: Matches, n: nat)
    requires OnBoard(release.tracks, board) && InOrder(local, board) && DistinctIds(local) && n <= |local| && m.Keys == Ids(local)
    requires AllGiven(norm, release.authoritative, local, board, m)
    ensures AllFollow(norm, local, release, m, n)
  {
    hide Stage, Tallies, Follows;
    if n > 0 {
      GivenFollows(norm, local, release, board, m, n - 1);
      FollowedTallies(norm, local, release, board, m, n - 1);
      StageKeeps(norm, release.authoritative, local, board, n - 1, |local|);
      assert Gives(board, Stage(norm, release.authoritative, local, board, |local|).matched, m, local[n - 1]);
      FollowsIffGives(norm, local, release, board, m, n - 1);
    }
  }

  // ---------------------------------------------------------------------
  // Acceptance

  /** The tracks left to the third pass are those that are neither settled nor moved. */
  lemma LeftOver(norm: Title, auth: bool, local: seq<LocalTrack>, board: Board)
    requires DistinctIds(local) && Seated(local, board) && InOrder(local, board) && forall k :: k in board ==> Place(board[k]) == k
    ensures DistinctIds(Stage(norm, auth, local, board, |local|).rest)
    ensures forall t :: t in Stage(norm, auth, local, board, |local|).rest ==>
                          t in local && t.id !in Stage(norm, auth, local, board, |local|).matched
  {
    var first := FirstPass(norm, auth, local, board);
    hide Placed, Justified, DistinctIds, Seated;
    assert local[..|local|] == local && local[|local|..] == [] && first.rest + [] == first.rest;
    FirstPassSound(norm, auth, local, board, |local|);
    var second := SecondPass(norm, first.rest, board, first);
    assert first.rest[..|first.rest|] == first.rest && first.rest[|first.rest|..] == [] && second.rest + [] == second.rest;
    SecondPassSound(norm, auth, local, board, first, |first.rest|);
    hide FirstPass, SecondPass;
  }

  lemma SpotFree(norm: Title, auth: bool, local: seq<LocalTrack>, board: Board, m: Matches, p: Progress, t: LocalTrack)
    requires InOrder(local, board) && Seated(local, board) && DistinctIds(local) && m.Keys == Ids(local)
    requires Tallies(norm, auth, local, board, m, p, |local|) && OneEach(local, m) && forall k :: k in board ==> Place(board[k]) == k
    requires t in local && t.id !in p.matched
    ensures Own(t) !in p.used
  {
    ByOwn(local, board);
    ById(local);
    var i :| 0 <= i < |local| && local[i] == t;
    assert Place(m[t.id]) == Own(t);
    hide Stays, Own, DistinctIds, Seated;
    forall j | 0 <= j < |local| && Place(m[local[j].id]) != Own(local[j])
      ensures Place(m[local[j].id]) != Own(t)
    {
      assert local[j] in local;
    }
  }

  lemma {:induction false} ThirdPassSucceeds(local: seq<LocalTrack>, board: Board, p: Progress, n: nat)
    requires n <= |p.rest| && DistinctIds(p.rest) && Seated(local, board)
    requires forall t :: t in p.rest ==> t in local && Own(t) in board && Own(t) !in p.used
    ensures ThirdPass(p.rest[..n], board, p).Some?
    ensures ThirdPass(p.rest[..n], board, p).value.used == p.used + OwnSlots(p.rest[..n])
  {
    if n > 0 {
      var t := p.rest[n - 1];
      assert p.rest[..n][..n - 1] == p.rest[..n - 1];
      assert p.rest[..n] == p.rest[..n - 1] + [t];
      ThirdPassSucceeds(local, board, p, n - 1);
      ByOwn(local, board);
      hide Own, Seated;
      forall u | u in p.rest[..n - 1] ensures u.id != t.id {}
      assert OwnSlots(p.rest[..n]) == OwnSlots(p.rest[..n - 1]) + {Own(t)};
    }
  }

  lemma LeftAgrees(norm: Title, local: seq<LocalTrack>, release: Release, board: Board, m: Matches, p: Progress, j: nat)
    requires OnBoard(release.tracks, board) && InOrder(local, board) && m.Keys == Ids(local) && j < |local|
    requires Recorded(norm, release.authoritative, local, board, m, p.matched, |local|)
    ensures local[j] in Unresolved(norm, local, release, m) <==> local[j].id !in p.matched
  {
    SettledStays(norm, release, board, local[j]);
    hide Stays, Settled, OnBoard;
    assert local[j] in local;
  }

  lemma LeftAll(norm: Title, local: seq<LocalTrack>, release: Release, board: Board, m: Matches, p: Progress)
    requires OnBoard(release.tracks, board) && InOrder(local, board) && m.Keys == Ids(local)
    requires Recorded(norm, release.authoritative, local, board, m, p.matched, |local|)
    ensures forall t :: t in local ==> (t in Unresolved(norm, local, release, m) <==> t.id !in p.matched)
  {
    hide Unresolved, OnBoard, Recorded;
    forall t | t in local
      ensures t in Unresolved(norm, local, release, m) <==> t.id !in p.matched
    {
      var j :| 0 <= j < |local| && local[j] == t;
      LeftAgrees(norm, local, release, board, m, p, j);
    }
  }

  lemma QuotaAgrees(norm: Title, local: seq<LocalTrack>, release: Release, board: Board, m: Matches, p: Progress)
    requires OnBoard(release.tracks, board) && InOrder(local, board) && DistinctIds(local) && m.Keys == Ids(local)
    requires Tallies(norm, release.authoritative, local, board, m, p, |local|)
    ensures |p.matched| * 5 >= |local| * 4 <==> 5 * |Unresolved(norm, local, release, m)| <= |local|
  {
    LeftAll(norm, local, release, board, m, p);
    hide OnBoard, InOrder, Recorded, Occupied, Settled, Moves;
    CountLeft(local, p.matched, Unresolved(norm, local, release, m));
  }

  lemma CountLeft(local: seq<LocalTrack>, matched: Matches, left: set<LocalTrack>)
    requires DistinctIds(local) && matched.Keys <= Ids(local)
    requires (forall t :: t in left ==> t in local) && forall t :: t in local ==> (t in left <==> t.id !in matched)
    ensures |matched| + |left| == |local|
  {
    hide Ids;
    IdsCount(local);
    ById(local);
    LeftIds(local, matched, left);
    Rest(matched.Keys, Ids(local));
  }

  lemma IdsCount(local: seq<LocalTrack>)
    requires DistinctIds(local)
    ensures |Ids(local)| == |local|
  {
    DistinctSize(local, (t: LocalTrack) => t.id, Ids(local));
  }

  lemma Rest(part: set<int>, whole: set<int>)
    requires part <= whole
    ensures |whole| == |part| + |whole - part|
  {
    assert whole == part + (whole - part);
  }

  lemma LeftIds(local: seq<LocalTrack>, matched: Matches, left: set<LocalTrack>)
    requires (forall t :: t in left ==> t in local) && forall t :: t in local ==> (t in left <==> t.id !in matched)
    requires forall t, u :: t in local && u in local && t.id == u.id ==> t == u
    ensures |left| == |Ids(local) - matched.Keys|
  {
    var ids := set t | t in left :: t.id;
    assert ids == Ids(local) - matched.Keys;
    SameSize(left, ids);
  }

  lemma {:induction false} SameSize(ts: set<LocalTrack>, ids: set<int>)
    requires ids == set t | t in ts :: t.id
    requires forall t, u :: t in ts && u in ts && t.id == u.id ==> t == u
    ensures |ts| == |ids|
    decreases |ts|
  {
    if t :| t in ts {
      assert ids == (set u | u in ts - {t} :: u.id) + {t.id};
      SameSize(ts - {t}, ids - {t.id});
    } else {
      assert ids == {};
    }
  }

  lemma MatchUnfolds(norm: Title, local: seq<LocalTrack>, release: Release, board: Board)
    requires local != [] && |local| == |release.tracks| && Layout(release.tracks) == Some(board)
    requires Contiguous(board.Keys) && Seated(local, board) && InOrder(local, board)
    ensures var second := Stage(norm, release.authoritative, local, board, |local|);
            && InOrder(second.rest, board)
            && Match(norm, local, release) ==
               (if |second.matched| * 5 < |local| * 4 then None
                else
                  var third := ThirdPass(second.rest, board, second);
                  if third.Some? && |third.value.matched| == |local| then Some(third.value.matched) else None)
  {
    var first := FirstPass(norm, release.authoritative, local, board);
    assert local[..|local|] == local;
    FirstPassRest(norm, release.authoritative, local, board);
    SecondPassRest(norm, first.rest, board, first);
    hide Contiguous, Layout, FirstPass, SecondPass, ThirdPass;
  }

  /** An answer of Match follows the rule. */
  lemma MatchFollows(norm: Title, local: seq<LocalTrack>, release: Release, m: Matches)
    requires Match(norm, local, release) == Some(m)
    ensures IsAnswer(norm, local, release, m)
  {
    hide Match, IsAnswer, Stage, Tallies, Follows, Complete, Fitting, Layout, Contiguous, Seated, Evidenced;
    AcceptedShape(norm, local, release);
    ShapeAgrees(local, release.tracks);
    var auth := release.authoritative;
    var board, _ := PassesSound(norm, local, release, m);
    SeatedInOrder(local, board);
    Given(norm, local, release, board, m);
    GivenFollows(norm, local, release, board, m, |local|);
    FollowedTallies(norm, local, release, board, m, |local|);
    QuotaAgrees(norm, local, release, board, m, Stage(norm, auth, local, board, |local|));
    Collect(norm, local, release, m);
  }

  lemma AcceptedShape(norm: Title, local: seq<LocalTrack>, release: Release)
    requires Match(norm, local, release).Some?
    ensures local != [] && |local| == |release.tracks|
  {
  }

  lemma SeatedInOrder(local: seq<LocalTrack>, board: Board)
    requires Seated(local, board)
    ensures InOrder(local, board)
  {
  }

  lemma Collect(norm: Title, local: seq<LocalTrack>, release: Release, m: Matches)
    requires local != [] && |local| == |release.tracks| && Complete(release.tracks) && Fitting(local, release.tracks)
    requires m.Keys == Ids(local) && AllFollow(norm, local, release, m, |local|)
    requires forall a, b :: a in m && b in m && a != b ==> Place(m[a]) != Place(m[b])
    requires 5 * |Unresolved(norm, local, release, m)| <= |local|
    ensures IsAnswer(norm, local, release, m)
  {
    hide Follows, Complete, Fitting, Unresolved;
  }

  /** What the stages gave is what is answered. */
  lemma Given(norm: Title, local: seq<LocalTrack>, release: Release, board: Board, m: Matches)
    requires Match(norm, local, release) == Some(m) && DistinctIds(local) && OnBoard(release.tracks, board)
    requires Layout(release.tracks) == Some(board) && Contiguous(board.Keys) && Seated(local, board) && InOrder(local, board)
    requires m.Keys == Ids(local) && forall id :: id in m ==> Place(m[id]) in board && m[id] == board[Place(m[id])]
    ensures AllGiven(norm, release.authoritative, local, board, m)
    ensures |Stage(norm, release.authoritative, local, board, |local|).matched| * 5 >= |local| * 4
  {
    var auth := release.authoritative;
    var first := FirstPass(norm, auth, local, board);
    var second := SecondPass(norm, first.rest, board, first);
    assert local[..|local|] == local;
    assert second == Stage(norm, auth, local, board, |local|);
    MatchUnfolds(norm, local, release, board);
    hide Match, FirstPass, SecondPass, ThirdPass, Placed, Justified, Tracked, Stage, Layout, Contiguous, Seated, Place, Own;
    StagesSound(norm, auth, local, board, first, second);
    GivenEach(local, board, m, second.matched);
  }

  lemma GivenEach(local: seq<LocalTrack>, board: Board, m: Matches, matched: Matches)
    requires InOrder(local, board) && m.Keys == Ids(local)
    requires forall id :: id in m ==> Place(m[id]) in board && m[id] == board[Place(m[id])]
    requires forall id :: id in matched ==> id in m && m[id] == matched[id]
    requires forall t :: t in local && t.id !in matched ==> Place(m[t.id]) == Own(t)
    ensures forall i :: 0 <= i < |local| ==> Gives(board, matched, m, local[i])
  {
    hide Own, Place;
    forall i | 0 <= i < |local|
      ensures Gives(board, matched, m, local[i])
    {
      assert local[i] in local;
    }
  }

  /** The third pass finds every position it needs free when no two tracks are to share one. */
  lemma ThirdPassAccepts(norm: Title, auth: bool, local: seq<LocalTrack>, board: Board, m: Matches)
    requires InOrder(local, board) && Seated(local, board) && DistinctIds(local) && m.Keys == Ids(local)
    requires (forall k :: k in board ==> Place(board[k]) == k) && OneEach(local, m)
    requires Tallies(norm, auth, local, board, m, Stage(norm, auth, local, board, |local|), |local|)
    ensures var p := Stage(norm, auth, local, board, |local|);
            && InOrder(p.rest, board)
            && ThirdPass(p.rest, board, p).Some?
  {
    var p := Stage(norm, auth, local, board, |local|);
    hide Stage, Tallies, Seated, OneEach, DistinctIds, ThirdPass;
    LeftOver(norm, auth, local, board);
    forall t | t in p.rest
      ensures t in local && Own(t) in board && Own(t) !in p.used
    {
      SpotFree(norm, auth, local, board, m, p, t);
    }
    ThirdPassSucceeds(local, board, p, |p.rest|);
    assert p.rest[..|p.rest|] == p.rest;
  }

  /** The three passes together give the tallied answer. */
  lemma ThirdPassGives(norm: Title, auth: bool, local: seq<LocalTrack>, board: Board, m: Matches)
    requires InOrder(local, board) && Seated(local, board) && DistinctIds(local) && m.Keys == Ids(local)
    requires forall k :: k in board ==> Place(board[k]) == k
    requires var p := Stage(norm, auth, local, board, |local|);
             && Tallies(norm, auth, local, board, m, p, |local|)
             && InOrder(p.rest, board) && ThirdPass(p.rest, board, p).Some?
    ensures var p := Stage(norm, auth, local, board, |local|);
            ThirdPass(p.rest, board, p).value.matched == m
  {
    var first := FirstPass(norm, auth, local, board);
    var p := Stage(norm, auth, local, board, |local|);
    assert local[..|local|] == local;
    assert p == SecondPass(norm, first.rest, board, first);
    hide FirstPass, SecondPass, ThirdPass, Justified, Stage, Seated, DistinctIds;
    StagesSound(norm, auth, local, board, first, p);
    var q := ThirdPass(p.rest, board, p).value;
    SameAnswer(norm, auth, local, board, m, p, q);
  }

  lemma SameAnswer(norm: Title, auth: bool, local: seq<LocalTrack>, board: Board, m: Matches, p: Progress, q: Progress)
    requires InOrder(local, board) && m.Keys == Ids(local)
    requires Recorded(norm, auth, local, board, m, p.matched, |local|)
    requires Placed(board, q.matched, q.used) && Tracked(local, [], q.matched)
    requires forall id :: id in p.matched ==> id in q.matched && q.matched[id] == p.matched[id]
    requires forall t :: t in local && t.id in q.matched && t.id !in p.matched ==> Place(q.matched[t.id]) == Own(t)
    ensures q.matched == m
  {
    hide Stays, Own, Place;
    forall t | t in local
      ensures t.id in q.matched && q.matched[t.id] == m[t.id]
    {
      var j :| 0 <= j < |local| && local[j] == t;
      assert Gives(board, p.matched, m, local[j]);
    }
  }

  /** What follows the rule is the answer of Match. */
  lemma FollowsMatch(norm: Title, local: seq<LocalTrack>, release: Release, m: Matches)
    requires IsAnswer(norm, local, release, m)
    ensures Match(norm, local, release) == Some(m)
  {
    hide Match, Stage, Tallies, Follows, Complete, Fitting, Layout, Contiguous, OneEach, Unresolved, Seated, DistinctIds, Ids;
    var auth := release.authoritative;
    ShapeAgrees(local, release.tracks);
    var board := Layout(release.tracks).value;
    SeatedInOrder(local, board);
    FollowedTallies(norm, local, release, board, m, |local|);
    QuotaAgrees(norm, local, release, board, m, Stage(norm, auth, local, board, |local|));
    ThirdPassAccepts(norm, auth, local, board, m);
    ThirdPassGives(norm, auth, local, board, m);
    MatchUnfolds(norm, local, release, board);
    IdsCount(local);
  }

  /** The answer of matchReleaseUnion, for every input: it accepts a release of distinct
      positions 1..k on every disc and as many local tracks on distinct positions of it, when
      the tracks that follow the rule take different positions and at most a fifth of them stay
      without evidence; it then answers what the rule says. */
  lemma MatchIsTheAnswer(norm: Title, local: seq<LocalTrack>, release: Release, m: Matches)
    ensures Match(norm, local, release) == Some(m) <==> IsAnswer(norm, local, release, m)
  {
    hide Match, IsAnswer;
    if Match(norm, local, release) == Some(m) {
      MatchFollows(norm, local, release, m);
    }
    if IsAnswer(norm, local, release, m) {
      FollowsMatch(norm, local, release, m);
    }
  }

  /** m leaves the settled tracks where they are, and gives each other track the one release
      track of its title and duration that no settled track has, never the same to two. */
  predicate Corrects(norm: Title, local: seq<LocalTrack>, release: Release, m: Matches)
    requires m.Keys == Ids(local)
  {
    && (forall t :: t in local && Settled(norm, release, t) ==> m[t.id] in release.tracks && !Moves(t, m))
    && (forall t :: t in local && !Settled(norm, release, t) ==>
          Beyond(norm, local, release, t, m[t.id]) &&
          forall c :: c in release.tracks && Beyond(norm, local, release, t, c) ==> c == m[t.id])
    && (forall t, u :: t in local && u in local && t.id != u.id && !Settled(norm, release, t) && !Settled(norm, release, u) ==>
          Spot(m[t.id].disc, m[t.id].index) != Spot(m[u.id].disc, m[u.id].index))
  }

  /** A release track of t's title and duration, at no settled track's position. */
  predicate Beyond(norm: Title, local: seq<LocalTrack>, release: Release, t: LocalTrack, c: CanonicalTrack) {
    && c in release.tracks && norm(t.title) == norm(c.title) && Near(t.durationMs, c.durationMs)
    && forall u :: u in local && Settled(norm, release, u) ==> Spot(u.disc, u.index) != Spot(c.disc, c.index)
  }

  /** An unsettled track with such a release track is to leave its position. */
  lemma BeyondMoves(norm: Title, local: seq<LocalTrack>, release: Release, t: LocalTrack, m: Matches)
    requires t.id in m && !Settled(norm, release, t) && Beyond(norm, local, release, t, m[t.id])
    ensures Moves(t, m)
  {
  }

  lemma CorrectedFollows(norm: Title, local: seq<LocalTrack>, release: Release, m: Matches, i: nat)
    requires i < |local| && m.Keys == Ids(local) && Corrects(norm, local, release, m)
    requires forall i, j :: 0 <= i < j < |local| ==> local[i].id != local[j].id
    ensures Follows(norm, local, release, m, i)
  {
    var t := local[i];
    assert t in local;
    if !Settled(norm, release, t) {
      forall j | 0 <= j < i && Moves(local[j], m)
        ensures Spot(m[local[j].id].disc, m[local[j].id].index) != Spot(m[t.id].disc, m[t.id].index)
      {
        assert local[j] in local;
      }
      hide Settled, Moves;
      assert Open(norm, local, release, m, i, m[t.id]);
      forall c | Open(norm, local, release, m, i, c)
        ensures c == m[t.id]
      {
        assert Beyond(norm, local, release, t, c);
      }
      assert Sole(norm, local, release, m, i, m[t.id]);
    }
  }

  lemma CorrectedApart(norm: Title, local: seq<LocalTrack>, release: Release, m: Matches)
    requires m.Keys == Ids(local) && Corrects(norm, local, release, m) && Fitting(local, release.tracks)
    ensures OneEach(local, m)
  {
    hide Settled;
    forall t, u | t in local && u in local && t.id != u.id
      ensures Spot(m[t.id].disc, m[t.id].index) != Spot(m[u.id].disc, m[u.id].index)
    {
      var i :| 0 <= i < |local| && local[i] == t;
      var j :| 0 <= j < |local| && local[j] == u;
      assert Spot(t.disc, t.index) != Spot(u.disc, u.index);
    }
  }

  /** A union whose misplaced tracks each fit one position only, all different, is accepted
      with exactly those corrections; the other tracks keep their positions. */
  lemma CorrectedUnionAccepted(norm: Title, local: seq<LocalTrack>, release: Release, m: Matches)
    requires local != [] && |local| == |release.tracks| && Complete(release.tracks) && Fitting(local, release.tracks)
    requires m.Keys == Ids(local) && Corrects(norm, local, release, m)
    ensures Match(norm, local, release) == Some(m)
  {
    hide Match, Complete, Follows, OneEach, Settled, Moves;
    forall i | 0 <= i < |local|
      ensures Follows(norm, local, release, m, i)
    {
      CorrectedFollows(norm, local, release, m, i);
    }
    CorrectedApart(norm, local, release, m);
    forall t | t in local && !Settled(norm, release, t)
      ensures Moves(t, m)
    {
      BeyondMoves(norm, local, release, t, m);
    }
    assert Unresolved(norm, local, release, m) == {};
    MatchIsTheAnswer(norm, local, release, m);
  }
}
