/** matchReleaseUnion (internal/store/split_album_reconciliation.go): match the union of split
    album fragments to the track list of a canonical release. Title normalisation is the
    uninterpreted parameter `norm`. */
module ReleaseUnion {
  import opened Common

  datatype LocalTrack = LocalTrack(id: int, disc: int, index: int, title: string, durationMs: int)

  datatype CanonicalTrack = CanonicalTrack(disc: int, index: int, title: string, durationMs: int, recordingId: string)

  datatype Release = Release(tracks: seq<CanonicalTrack>, authoritative: bool)

  datatype Slot = Slot(disc: int, index: int)

  type Title = string -> string

  type Board = map<Slot, CanonicalTrack>

  type Matches = map<int, CanonicalTrack>

  function Own(t: LocalTrack): Slot {
    Slot(DiscNumber(t.disc), t.index)
  }

  function Place(c: CanonicalTrack): Slot {
    Slot(DiscNumber(c.disc), c.index)
  }

  predicate SameTitle(norm: Title, t: LocalTrack, c: CanonicalTrack) {
    norm(t.title) == norm(c.title)
  }

  /** Evidence that a track is right where its own tags put it. */
  predicate InPlace(norm: Title, authoritative: bool, t: LocalTrack, c: CanonicalTrack) {
    authoritative || SameTitle(norm, t, c) || DurationClose(t.durationMs, c.durationMs)
  }

  /** Evidence strong enough to move a track to another position. */
  predicate Fits(norm: Title, t: LocalTrack, c: CanonicalTrack) {
    SameTitle(norm, t, c) && DurationClose(t.durationMs, c.durationMs)
  }

  // ---------------------------------------------------------------------
  // Specification

  /** The release as a board of distinct positive positions, if it is one. */
  function Layout(tracks: seq<CanonicalTrack>): (b: Option<Board>)
    ensures b.Some? ==> |b.value| == |tracks|
    ensures b.Some? ==> forall k :: k in b.value ==> k.index > 0 && Place(b.value[k]) == k
  {
    if tracks == [] then Some(map[])
    else
      var c := tracks[|tracks| - 1];
      var rest := Layout(tracks[..|tracks| - 1]);
      if rest.None? || c.index <= 0 || Place(c) in rest.value then None else Some(rest.value[Place(c) := c])
  }

  /** Every disc's positions are exactly 1..k. */
  predicate Contiguous(slots: set<Slot>) {
    forall k :: k in slots ==> k.index > 0 && forall p :: 1 <= p <= k.index ==> Slot(k.disc, p) in slots
  }

  /** Every local track sits on a position of the board, no two on the same one. */
  predicate Seated(local: seq<LocalTrack>, board: Board) {
    && (forall t :: t in local ==> t.index > 0 && Own(t) in board)
    && (forall i, j :: 0 <= i < j < |local| ==> Own(local[i]) != Own(local[j]))
  }

  datatype Progress = Progress(matched: Matches, used: set<Slot>, rest: seq<LocalTrack>)

  /** First pass: tracks with evidence at their own position. */
  function FirstPass(norm: Title, authoritative: bool, local: seq<LocalTrack>, board: Board): Progress
    requires forall t :: t in local ==> Own(t) in board
  {
    if local == [] then Progress(map[], {}, [])
    else
      var t := local[|local| - 1];
      var p := FirstPass(norm, authoritative, local[..|local| - 1], board);
      if InPlace(norm, authoritative, t, board[Own(t)]) then
        Progress(p.matched[t.id := board[Own(t)]], p.used + {Own(t)}, p.rest)
      else p.(rest := p.rest + [t])
  }

  /** Free positions whose title and duration agree with a track. */
  function Openings(norm: Title, t: LocalTrack, board: Board, used: set<Slot>): set<Slot> {
    set k | k in board && k !in used && Fits(norm, t, board[k])
  }

  ghost function Only(s: set<Slot>): (k: Slot)
    requires |s| == 1
    ensures s == {k}
  {
    var k :| k in s;
    assert |s - {k}| == 0;
    k
  }

  /** Second pass: a track that fits exactly one free position moves there. */
  ghost function SecondPass(norm: Title, todo: seq<LocalTrack>, board: Board, start: Progress): Progress {
    if todo == [] then start.(rest := [])
    else
      var t := todo[|todo| - 1];
      var p := SecondPass(norm, todo[..|todo| - 1], board, start);
      var open := Openings(norm, t, board, p.used);
      if |open| == 1 then
        var k := Only(open);
        Progress(p.matched[t.id := board[k]], p.used + {k}, p.rest)
      else p.(rest := p.rest + [t])
  }

  /** Third pass: what is left keeps its own position, provided it is still free. */
  function ThirdPass(todo: seq<LocalTrack>, board: Board, start: Progress): Option<Progress>
    requires forall t :: t in todo ==> Own(t) in board
  {
    if todo == [] then Some(start)
    else
      var t := todo[|todo| - 1];
      var p := ThirdPass(todo[..|todo| - 1], board, start);
      if p.None? || Own(t) in p.value.used then None
      else Some(p.value.(matched := p.value.matched[t.id := board[Own(t)]], used := p.value.used + {Own(t)}))
  }

  lemma {:induction false} FirstPassRest(norm: Title, authoritative: bool, local: seq<LocalTrack>, board: Board)
    requires forall t :: t in local ==> Own(t) in board
    ensures forall t :: t in FirstPass(norm, authoritative, local, board).rest ==> t in local
  {
    if local != [] {
      FirstPassRest(norm, authoritative, local[..|local| - 1], board);
    }
  }

  lemma {:induction false} SecondPassRest(norm: Title, todo: seq<LocalTrack>, board: Board, start: Progress)
    ensures forall t :: t in SecondPass(norm, todo, board, start).rest ==> t in todo
  {
    if todo != [] {
      SecondPassRest(norm, todo[..|todo| - 1], board, start);
    }
  }

  /** The answer of matchReleaseUnion. */
  ghost function Match(norm: Title, local: seq<LocalTrack>, release: Release): Option<Matches> {
    if local == [] || |local| != |release.tracks| then None
    else
      var layout := Layout(release.tracks);
      if layout.None? || !Contiguous(layout.value.Keys) || !Seated(local, layout.value) then None
      else
        var board := layout.value;
        var first := FirstPass(norm, release.authoritative, local, board);
        var second := SecondPass(norm, first.rest, board, first);
        if |second.matched| * 5 < |local| * 4 then None
        else
          FirstPassRest(norm, release.authoritative, local, board);
          SecondPassRest(norm, first.rest, board, first);
          var third := ThirdPass(second.rest, board, second);
          if third.Some? && |third.value.matched| == |local| then Some(third.value.matched) else None
  }

  // ---------------------------------------------------------------------
  // What acceptance means

  function Ids(local: seq<LocalTrack>): set<int> {
    set t | t in local :: t.id
  }

  ghost predicate DistinctIds(local: seq<LocalTrack>) {
    forall i, j :: 0 <= i < j < |local| ==> local[i].id != local[j].id
  }

  predicate Evidenced(norm: Title, authoritative: bool, t: LocalTrack, c: CanonicalTrack) {
    (Place(c) == Own(t) && InPlace(norm, authoritative, t, c)) || Fits(norm, t, c)
  }

  /** No two matched tracks share a position, and `used` is exactly the matched positions. */
  ghost predicate Placed(board: Board, matched: Matches, used: set<Slot>) {
    && (forall id :: id in matched ==>
          Place(matched[id]) in board && matched[id] == board[Place(matched[id])] && Place(matched[id]) in used)
    && (forall a, b :: a in matched && b in matched && a != b ==> Place(matched[a]) != Place(matched[b]))
    && (forall k :: k in used ==> exists id :: id in matched && Place(matched[id]) == k)
  }

  /** Every track is either matched or still waiting, never both. */
  ghost predicate Tracked(local: seq<LocalTrack>, waiting: seq<LocalTrack>, matched: Matches) {
    && matched.Keys <= Ids(local)
    && DistinctIds(waiting)
    && (forall t :: t in waiting ==> t in local && t.id !in matched)
    && (forall t :: t in local ==> t.id in matched || t in waiting)
  }

  ghost predicate Justified(norm: Title, authoritative: bool, local: seq<LocalTrack>, matched: Matches) {
    forall t :: t in local && t.id in matched ==> Evidenced(norm, authoritative, t, matched[t.id])
  }

  /** Giving the waiting track t the free position k. */
  lemma Assign(local: seq<LocalTrack>, a: seq<LocalTrack>, t: LocalTrack, b: seq<LocalTrack>,
               board: Board, p: Progress, k: Slot)
    requires DistinctIds(local) && Tracked(local, a + ([t] + b), p.matched) && Placed(board, p.matched, p.used)
    requires k in board && k !in p.used && Place(board[k]) == k
    ensures Tracked(local, a + b, p.matched[t.id := board[k]])
    ensures Placed(board, p.matched[t.id := board[k]], p.used + {k})
  {
    TakenFromWaiting(a, t, b);
    assert (a + ([t] + b))[|a|] == t;
    hide Placed;
    assert Tracked(local, a + b, p.matched[t.id := board[k]]);
    hide Tracked, DistinctIds;
    PlaceOne(board, p.matched, p.used, t.id, k);
  }

  /** Taking t out of the waiting tracks leaves all others, and t is none of them. */
  lemma TakenFromWaiting(a: seq<LocalTrack>, t: LocalTrack, b: seq<LocalTrack>)
    requires DistinctIds(a + ([t] + b))
    ensures DistinctIds(a + b) && t in a + ([t] + b)
    ensures forall x :: x in a + b <==> x in a + ([t] + b) && x.id != t.id
    ensures forall x :: x in a + ([t] + b) && x.id == t.id ==> x == t
  {
    var waiting, left := a + ([t] + b), a + b;
    assert waiting[|a|] == t;
    forall i | 0 <= i < |left|
      ensures left[i] == waiting[if i < |a| then i else i + 1]
    {
    }
    forall x | x in waiting
      ensures x.id == t.id ==> x == t
      ensures x.id != t.id ==> x in left
    {
      var j :| 0 <= j < |waiting| && waiting[j] == x;
      if j != |a| {
        assert x == left[if j < |a| then j else j - 1];
      }
    }
  }

  lemma PlaceOne(board: Board, matched: Matches, used: set<Slot>, id: int, k: Slot)
    requires Placed(board, matched, used) && id !in matched && k in board && k !in used && Place(board[k]) == k
    ensures Placed(board, matched[id := board[k]], used + {k})
  {
    var more := matched[id := board[k]];
    forall q | q in used + {k}
      ensures exists x :: x in more && Place(more[x]) == q
    {
      if q == k {
        assert id in more && Place(more[id]) == k;
      } else {
        var x :| x in matched && Place(matched[x]) == q;
        assert x != id && Place(more[x]) == q;
      }
    }
  }

  lemma WaitingIsLocal(local: seq<LocalTrack>, a: seq<LocalTrack>, t: LocalTrack, b: seq<LocalTrack>, matched: Matches)
    requires Tracked(local, a + ([t] + b), matched)
    ensures t in local
  {
    assert (a + ([t] + b))[|a|] == t;
  }

  /** The id of a track determines it. */
  lemma SameId(local: seq<LocalTrack>, t: LocalTrack, u: LocalTrack)
    requires DistinctIds(local) && t in local && u in local && t.id == u.id
    ensures t == u
  {
    var i :| 0 <= i < |local| && local[i] == t;
    var j :| 0 <= j < |local| && local[j] == u;
  }

  lemma {:induction false} FirstPassUses(norm: Title, authoritative: bool, local: seq<LocalTrack>, board: Board, n: nat)
    requires n < |local| && Seated(local, board)
    ensures forall t :: t in local[..n] ==> Own(t) in board
    ensures Own(local[n]) !in FirstPass(norm, authoritative, local[..n], board).used
  {
    FirstPassUsesOnly(norm, authoritative, local[..n], board);
  }

  function OwnSlots(local: seq<LocalTrack>): set<Slot> {
    set t | t in local :: Own(t)
  }

  lemma {:induction false} FirstPassUsesOnly(norm: Title, authoritative: bool, local: seq<LocalTrack>, board: Board)
    requires forall t :: t in local ==> Own(t) in board
    ensures FirstPass(norm, authoritative, local, board).used <= OwnSlots(local)
  {
    if local != [] {
      var prefix := local[..|local| - 1];
      FirstPassUsesOnly(norm, authoritative, prefix, board);
      assert local == prefix + [local[|local| - 1]];
      assert OwnSlots(prefix) <= OwnSlots(local);
    }
  }

  lemma NothingMatched(norm: Title, authoritative: bool, local: seq<LocalTrack>, board: Board)
    requires DistinctIds(local)
    ensures Placed(board, map[], {}) && Tracked(local, local, map[])
    ensures Justified(norm, authoritative, local, map[])
  {
  }

  lemma {:induction false} FirstPassSound(norm: Title, authoritative: bool, local: seq<LocalTrack>, board: Board, n: nat)
    requires n <= |local| && DistinctIds(local) && Seated(local, board)
    requires forall k :: k in board ==> Place(board[k]) == k
    ensures var p := FirstPass(norm, authoritative, local[..n], board);
            Placed(board, p.matched, p.used) && Tracked(local, p.rest + local[n..], p.matched) &&
            Justified(norm, authoritative, local, p.matched)
  {
    hide Placed, Tracked, Justified, DistinctIds;
    if n == 0 {
      assert [] + local[0..] == local;
      NothingMatched(norm, authoritative, local, board);
    } else {
      FirstPassSound(norm, authoritative, local, board, n - 1);
      FirstPassSeats(norm, authoritative, local, board, n - 1);
    }
  }

  /** The first pass seats or keeps one more track. */
  lemma {:induction false} FirstPassSeats(norm: Title, authoritative: bool, local: seq<LocalTrack>, board: Board, n: nat)
    requires n < |local| && DistinctIds(local) && Seated(local, board)
    requires forall k :: k in board ==> Place(board[k]) == k
    requires var p := FirstPass(norm, authoritative, local[..n], board);
             Placed(board, p.matched, p.used) && Tracked(local, p.rest + local[n..], p.matched) &&
             Justified(norm, authoritative, local, p.matched)
    ensures var p := FirstPass(norm, authoritative, local[..n + 1], board);
            Placed(board, p.matched, p.used) && Tracked(local, p.rest + local[n + 1..], p.matched) &&
            Justified(norm, authoritative, local, p.matched)
  {
    hide Placed, Tracked, Justified, DistinctIds;
    var t := local[n];
    assert local[..n + 1][..n] == local[..n];
    assert local[n..] == [t] + local[n + 1..];
    var p := FirstPass(norm, authoritative, local[..n], board);
    if InPlace(norm, authoritative, t, board[Own(t)]) {
      FirstPassUses(norm, authoritative, local, board, n);
      Assign(local, p.rest, t, local[n + 1..], board, p, Own(t));
      JustifyOne(norm, authoritative, local, p.matched, t, board[Own(t)]);
    } else {
      assert (p.rest + [t]) + local[n + 1..] == p.rest + ([t] + local[n + 1..]);
    }
  }

  lemma JustifyOne(norm: Title, authoritative: bool, local: seq<LocalTrack>, matched: Matches,
                   t: LocalTrack, c: CanonicalTrack)
    requires DistinctIds(local) && t in local && Justified(norm, authoritative, local, matched)
    requires Evidenced(norm, authoritative, t, c)
    ensures Justified(norm, authoritative, local, matched[t.id := c])
  {
    forall u | u in local && u.id == t.id ensures u == t { SameId(local, t, u); }
  }

  lemma {:induction false} SecondPassSound(norm: Title, authoritative: bool, local: seq<LocalTrack>, board: Board,
                                           start: Progress, n: nat)
    requires n <= |start.rest| && DistinctIds(local)
    requires forall k :: k in board ==> Place(board[k]) == k
    requires Placed(board, start.matched, start.used) && Tracked(local, start.rest, start.matched) && Justified(norm, authoritative, local, start.matched)
    ensures var p := SecondPass(norm, start.rest[..n], board, start);
            Placed(board, p.matched, p.used) && Tracked(local, p.rest + start.rest[n..], p.matched) &&
            Justified(norm, authoritative, local, p.matched)
  {
    hide Placed, Tracked, Justified, DistinctIds;
    var todo := start.rest;
    if n == 0 {
      assert [] + todo[0..] == todo;
    } else {
      SecondPassSound(norm, authoritative, local, board, start, n - 1);
      var t := todo[n - 1];
      assert todo[..n][..n - 1] == todo[..n - 1];
      assert todo[n - 1..] == [t] + todo[n..];
      var p := SecondPass(norm, todo[..n - 1], board, start);
      var open := Openings(norm, t, board, p.used);
      if |open| == 1 {
        var k := Only(open);
        assert k in open;
        Assign(local, p.rest, t, todo[n..], board, p, k);
        WaitingIsLocal(local, p.rest, t, todo[n..], p.matched);
        JustifyOne(norm, authoritative, local, p.matched, t, board[k]);
      } else {
        assert (p.rest + [t]) + todo[n..] == p.rest + ([t] + todo[n..]);
      }
    }
  }

  lemma {:induction false} ThirdPassSound(local: seq<LocalTrack>, board: Board, start: Progress, n: nat)
    requires n <= |start.rest| && DistinctIds(local) && Seated(local, board)
    requires forall k :: k in board ==> Place(board[k]) == k
    requires Placed(board, start.matched, start.used) && Tracked(local, start.rest, start.matched)
    requires ThirdPass(start.rest[..n], board, start).Some?
    ensures var p := ThirdPass(start.rest[..n], board, start).value;
            Placed(board, p.matched, p.used) && Tracked(local, start.rest[n..], p.matched) && KeptOwn(local, start.matched, p.matched)
  {
    hide Placed, Tracked, DistinctIds, KeptOwn, Seated;
    var todo := start.rest;
    WaitingAreSeated(local, board, todo, start.matched);
    assert forall t :: t in todo[..n] ==> t in todo;
    if n == 0 {
      assert todo[0..] == todo;
      NothingKept(local, start.matched);
    } else {
      var t := todo[n - 1];
      assert todo[..n][..n - 1] == todo[..n - 1];
      assert todo[..n][n - 1] == t;
      ThirdPassSound(local, board, start, n - 1);
      assert todo[n - 1..] == [] + ([t] + todo[n..]) && [] + todo[n..] == todo[n..];
      assert forall x :: x in todo[..n - 1] ==> x in todo;
      var p := ThirdPass(todo[..n - 1], board, start).value;
      assert t in todo;
      Assign(local, [], t, todo[n..], board, p, Own(t));
      KeepOne(local, board, start.matched, p.matched, t);
    }
  }

  /** All that was matched stays, and what is new keeps its own position. */
  ghost predicate KeptOwn(local: seq<LocalTrack>, before: Matches, after: Matches) {
    && (forall id :: id in before ==> id in after && after[id] == before[id])
    && (forall t :: t in local && t.id in after && t.id !in before ==> Place(after[t.id]) == Own(t))
  }

  lemma NothingKept(local: seq<LocalTrack>, matched: Matches)
    ensures KeptOwn(local, matched, matched)
  {
  }

  lemma WaitingAreSeated(local: seq<LocalTrack>, board: Board, todo: seq<LocalTrack>, matched: Matches)
    requires Tracked(local, todo, matched) && Seated(local, board)
    ensures forall t :: t in todo ==> t in local && t.id !in matched && Own(t) in board
  {
  }

  lemma KeepOne(local: seq<LocalTrack>, board: Board, before: Matches, matched: Matches, t: LocalTrack)
    requires DistinctIds(local) && t in local && t.id !in before && Own(t) in board && Place(board[Own(t)]) == Own(t)
    requires KeptOwn(local, before, matched)
    ensures KeptOwn(local, before, matched[t.id := board[Own(t)]])
  {
    forall u | u in local && u.id == t.id
      ensures u == t
    {
      SameId(local, t, u);
    }
  }

  // ---------------------------------------------------------------------
  // Pigeonhole

  lemma {:induction false} DistinctValues<T>(values: seq<T>, image: set<T>)
    requires image == set x | x in values
    ensures |image| <= |values|
    ensures |image| == |values| <==> forall i, j :: 0 <= i < j < |values| ==> values[i] != values[j]
  {
    if values != [] {
      var prefix, last := values[..|values| - 1], values[|values| - 1];
      var smaller := set x | x in prefix;
      DistinctValues(prefix, smaller);
      assert values == prefix + [last];
      assert image == smaller + {last};
      if last in prefix {
        var i :| 0 <= i < |prefix| && prefix[i] == last;
        assert image == smaller && values[i] == values[|values| - 1];
      } else {
        assert forall i :: 0 <= i < |prefix| ==> values[i] == prefix[i] && prefix[i] in prefix;
      }
    }
  }

  lemma {:induction false} DistinctSize<T>(local: seq<LocalTrack>, f: LocalTrack -> T, image: set<T>)
    requires image == set t | t in local :: f(t)
    ensures |image| <= |local|
    ensures |image| == |local| <==> forall i, j :: 0 <= i < j < |local| ==> f(local[i]) != f(local[j])
  {
    var values := seq(|local|, i requires 0 <= i < |local| => f(local[i]));
    forall x
      ensures x in image <==> x in values
    {
      if x in image {
        var t :| t in local && f(t) == x;
        var i :| 0 <= i < |local| && local[i] == t;
        assert values[i] == x;
      }
    }
    DistinctValues(values, image);
    assert forall i :: 0 <= i < |local| ==> values[i] == f(local[i]);
  }

  lemma InjectiveSize(matched: Matches)
    requires forall a, b :: a in matched && b in matched && a != b ==> Place(matched[a]) != Place(matched[b])
    ensures |Targets(matched)| == |matched|
    decreases |matched|
  {
    if matched != map[] {
      var id :| id in matched;
      hide Place;
      var rest := matched - {id};
      assert forall x :: x in rest ==> x in matched && rest[x] == matched[x];
      InjectiveSize(rest);
      forall k | k in Targets(matched) ensures k in Targets(rest) + {Place(matched[id])} {
        var x :| x in matched && Place(matched[x]) == k;
        if x != id { assert x in rest && rest[x] == matched[x]; }
      }
      assert Targets(matched) == Targets(rest) + {Place(matched[id])};
      assert matched.Keys == rest.Keys + {id};
    }
  }

  function Targets(matched: Matches): set<Slot> {
    set id | id in matched :: Place(matched[id])
  }

  // ---------------------------------------------------------------------
  // The main results

  /** Tracks whose answer is not their own position. */
  function Moved(local: seq<LocalTrack>, m: Matches): set<LocalTrack>
    requires Ids(local) <= m.Keys
  {
    set t | t in local && Place(m[t.id]) != Own(t)
  }

  ghost function Lacking(norm: Title, authoritative: bool, local: seq<LocalTrack>, m: Matches): set<int>
    requires Ids(local) <= m.Keys
  {
    set t | t in local && !Evidenced(norm, authoritative, t, m[t.id]) :: t.id
  }

  lemma AcceptedIdsDistinct(norm: Title, local: seq<LocalTrack>, release: Release)
    requires Match(norm, local, release).Some?
    ensures DistinctIds(local)
  {
    var board := Layout(release.tracks).value;
    var first := FirstPass(norm, release.authoritative, local, board);
    var second := SecondPass(norm, first.rest, board, first);
    FirstPassRest(norm, release.authoritative, local, board);
    SecondPassRest(norm, first.rest, board, first);
    FirstPassKeys(norm, release.authoritative, local, board);
    SecondPassKeys(norm, first.rest, board, first);
    ThirdPassKeys(second.rest, board, second);
    var m := Match(norm, local, release).value;
    assert m.Keys <= Ids(local);
    SubsetCardinality(m.Keys, Ids(local));
    DistinctSize(local, (t: LocalTrack) => t.id, Ids(local));
  }

  lemma {:induction false} FirstPassKeys(norm: Title, authoritative: bool, local: seq<LocalTrack>, board: Board)
    requires forall t :: t in local ==> Own(t) in board
    ensures FirstPass(norm, authoritative, local, board).matched.Keys <= Ids(local)
  {
    if local != [] {
      FirstPassKeys(norm, authoritative, local[..|local| - 1], board);
    }
  }

  lemma {:induction false} SecondPassKeys(norm: Title, todo: seq<LocalTrack>, board: Board, start: Progress)
    ensures SecondPass(norm, todo, board, start).matched.Keys <= start.matched.Keys + Ids(todo)
  {
    if todo != [] {
      SecondPassKeys(norm, todo[..|todo| - 1], board, start);
    }
  }

  lemma {:induction false} ThirdPassKeys(todo: seq<LocalTrack>, board: Board, start: Progress)
    requires forall t :: t in todo ==> Own(t) in board
    requires ThirdPass(todo, board, start).Some?
    ensures ThirdPass(todo, board, start).value.matched.Keys <= start.matched.Keys + Ids(todo)
  {
    if todo != [] {
      ThirdPassKeys(todo[..|todo| - 1], board, start);
    }
  }

  /** The intermediate results behind an accepted answer. */
  lemma Unfold(norm: Title, local: seq<LocalTrack>, release: Release,
               m: Matches) returns (board: Board, first: Progress, second: Progress)
    requires Match(norm, local, release) == Some(m)
    ensures Layout(release.tracks) == Some(board) && Contiguous(board.Keys) && Seated(local, board)
    ensures |m| == |local| == |board|
    ensures first == FirstPass(norm, release.authoritative, local, board)
    ensures second == SecondPass(norm, first.rest, board, first) && |second.matched| * 5 >= |local| * 4
    ensures forall t :: t in second.rest ==> Own(t) in board
    ensures ThirdPass(second.rest, board, second).Some? && ThirdPass(second.rest, board, second).value.matched == m
  {
    board := Layout(release.tracks).value;
    first := FirstPass(norm, release.authoritative, local, board);
    second := SecondPass(norm, first.rest, board, first);
    FirstPassRest(norm, release.authoritative, local, board);
    SecondPassRest(norm, first.rest, board, first);
  }

  lemma StagesSound(norm: Title, auth: bool, local: seq<LocalTrack>, board: Board, first: Progress, second: Progress)
    requires DistinctIds(local) && Seated(local, board) && forall k :: k in board ==> Place(board[k]) == k
    requires first == FirstPass(norm, auth, local, board) && second == SecondPass(norm, first.rest, board, first)
    requires forall t :: t in second.rest ==> Own(t) in board
    requires ThirdPass(second.rest, board, second).Some?
    ensures Justified(norm, auth, local, second.matched)
    ensures var p := ThirdPass(second.rest, board, second).value;
            Placed(board, p.matched, p.used) && Tracked(local, [], p.matched) &&
            (forall id :: id in second.matched ==> id in p.matched && p.matched[id] == second.matched[id]) &&
            (forall t :: t in local && t.id in p.matched && t.id !in second.matched ==> Place(p.matched[t.id]) == Own(t))
  {
    hide Placed, Tracked, Justified, DistinctIds, Seated;
    assert local[..|local|] == local && local[|local|..] == [] && first.rest + [] == first.rest;
    FirstPassSound(norm, auth, local, board, |local|);
    assert first.rest[..|first.rest|] == first.rest && first.rest[|first.rest|..] == [] && second.rest + [] == second.rest;
    SecondPassSound(norm, auth, local, board, first, |first.rest|);
    assert second.rest[..|second.rest|] == second.rest && second.rest[|second.rest|..] == [];
    ThirdPassSound(local, board, second, |second.rest|);
  }

  /** The three passes put together, for an accepted union. */
  lemma PassesSound(norm: Title, local: seq<LocalTrack>, release: Release, m: Matches) returns (board: Board, second: Progress)
    requires Match(norm, local, release) == Some(m)
    ensures DistinctIds(local) && Layout(release.tracks) == Some(board) && Contiguous(board.Keys) && Seated(local, board)
    ensures m.Keys == Ids(local) && |m| == |local| == |board|
    ensures forall a, b :: a in m && b in m && a != b ==> Place(m[a]) != Place(m[b])
    ensures forall id :: id in m ==> Place(m[id]) in board && m[id] == board[Place(m[id])]
    ensures second.matched.Keys <= m.Keys && |second.matched| * 5 >= |local| * 4
    ensures forall t :: t in local ==>
              if t.id in second.matched then Evidenced(norm, release.authoritative, t, m[t.id])
              else Place(m[t.id]) == Own(t)
  {
    hide Match, DistinctIds, Seated, Contiguous, FirstPass, SecondPass, ThirdPass, Layout, Justified, Evidenced;
    AcceptedIdsDistinct(norm, local, release);
    var first;
    board, first, second := Unfold(norm, local, release, m);
    StagesSound(norm, release.authoritative, local, board, first, second);
    Conclude(norm, release.authoritative, local, board, second, ThirdPass(second.rest, board, second).value);
  }

  lemma Conclude(norm: Title, auth: bool, local: seq<LocalTrack>, board: Board, second: Progress, p: Progress)
    requires Justified(norm, auth, local, second.matched)
    requires Tracked(local, [], p.matched)
    requires forall id :: id in second.matched ==> id in p.matched && p.matched[id] == second.matched[id]
    requires forall t :: t in local && t.id in p.matched && t.id !in second.matched ==> Place(p.matched[t.id]) == Own(t)
    ensures p.matched.Keys == Ids(local) && second.matched.Keys <= p.matched.Keys
    ensures forall t :: t in local ==>
              if t.id in second.matched then Evidenced(norm, auth, t, p.matched[t.id])
              else Place(p.matched[t.id]) == Own(t)
  {
    assert forall t :: t in local ==> t.id in p.matched;
    assert forall id :: id in second.matched.Keys ==> id in p.matched.Keys;
  }

  /** An accepted union is a bijection from the local track ids onto the release's
      positions, and those positions are exactly 1..k on every disc. Each track keeps its
      own position or moves on matching title and duration; the moved tracks only permute
      among their own positions; at most a fifth of the tracks lack evidence. */
  lemma AcceptedUnionIsBijection(norm: Title, local: seq<LocalTrack>, release: Release, m: Matches)
    requires Match(norm, local, release) == Some(m)
    ensures DistinctIds(local) && m.Keys == Ids(local) && |m| == |local| == |release.tracks|
    ensures forall a, b :: a in m && b in m && a != b ==> Place(m[a]) != Place(m[b])
    ensures forall id :: id in m ==> m[id] in release.tracks
    ensures Targets(m) == Places(release.tracks) == OwnSlots(local)
    ensures Contiguous(Targets(m))
    ensures forall t :: t in local ==> Place(m[t.id]) == Own(t) || Fits(norm, t, m[t.id])
    ensures AssignedTo(Moved(local, m), m) == OwnOf(Moved(local, m))
    ensures |Lacking(norm, release.authoritative, local, m)| * 5 <= |local|
  {
    hide Match, FirstPass, SecondPass, ThirdPass, Layout, DistinctIds, Contiguous, Evidenced, Fits;
    hide Moved, AssignedTo, OwnOf, Lacking, Ids, OwnSlots, Targets, Places, Seated;
    var board, second := PassesSound(norm, local, release, m);
    FillsBoard(local, board, m);
    LayoutPlaces(release.tracks);
    ById(local);
    ByOwn(local, board);
    PermutedPositions(local, m);
    LackingBound(norm, release.authoritative, local, m, second);
    StaysOrFits(norm, release.authoritative, local, m, second);
  }

  lemma FillsBoard(local: seq<LocalTrack>, board: Board, m: Matches)
    requires Seated(local, board) && |m| == |local| == |board|
    requires forall a, b :: a in m && b in m && a != b ==> Place(m[a]) != Place(m[b])
    requires forall id :: id in m ==> Place(m[id]) in board
    ensures Targets(m) == board.Keys == OwnSlots(local)
  {
    InjectiveSize(m);
    SubsetCardinality(Targets(m), board.Keys);
    DistinctSize(local, Own, OwnSlots(local));
    SubsetCardinality(OwnSlots(local), board.Keys);
  }

  lemma StaysOrFits(norm: Title, auth: bool, local: seq<LocalTrack>, m: Matches, second: Progress)
    requires m.Keys == Ids(local)
    requires forall t :: t in local ==>
               if t.id in second.matched then Evidenced(norm, auth, t, m[t.id]) else Place(m[t.id]) == Own(t)
    ensures forall t :: t in local ==> Place(m[t.id]) == Own(t) || Fits(norm, t, m[t.id])
  {
  }

  function Places(tracks: seq<CanonicalTrack>): set<Slot> {
    set c | c in tracks :: Place(c)
  }

  lemma PlacesAppend(prefix: seq<CanonicalTrack>, c: CanonicalTrack)
    ensures Places(prefix + [c]) == Places(prefix) + {Place(c)}
  {
  }

  lemma LayoutStep(tracks: seq<CanonicalTrack>, prefix: seq<CanonicalTrack>, c: CanonicalTrack)
    requires tracks == prefix + [c] && Layout(tracks).Some?
    ensures Layout(prefix).Some? && Layout(tracks).value == Layout(prefix).value[Place(c) := c]
  {
    assert tracks[..|tracks| - 1] == prefix;
  }

  lemma AddToBoard(board: Board, prefix: seq<CanonicalTrack>, c: CanonicalTrack, more: Board)
    requires board.Keys == Places(prefix) && (forall k :: k in board ==> board[k] in prefix) && more == board[Place(c) := c]
    ensures more.Keys == Places(prefix + [c]) && forall k :: k in more ==> more[k] in prefix + [c]
  {
    PlacesAppend(prefix, c);
    hide Places;
    forall k | k in board
      ensures board[k] in prefix + [c]
    {
      assert board[k] in prefix;
    }
  }

  lemma {:induction false} LayoutPlaces(tracks: seq<CanonicalTrack>)
    requires Layout(tracks).Some?
    ensures Layout(tracks).value.Keys == Places(tracks)
    ensures forall k :: k in Layout(tracks).value ==> Layout(tracks).value[k] in tracks
  {
    if tracks != [] {
      var prefix, c := tracks[..|tracks| - 1], tracks[|tracks| - 1];
      assert tracks == prefix + [c];
      hide Places, Layout;
      LayoutStep(tracks, prefix, c);
      LayoutPlaces(prefix);
      AddToBoard(Layout(prefix).value, prefix, c, Layout(tracks).value);
    }
  }

  lemma ById(local: seq<LocalTrack>)
    requires DistinctIds(local)
    ensures forall t, u :: t in local && u in local && t.id == u.id ==> t == u
  {
    forall t, u | t in local && u in local && t.id == u.id ensures t == u {
      SameId(local, t, u);
    }
  }

  lemma ByOwn(local: seq<LocalTrack>, board: Board)
    requires Seated(local, board)
    ensures forall t, u :: t in local && u in local && Own(t) == Own(u) ==> t == u
  {
    forall t, u | t in local && u in local && Own(t) == Own(u) ensures t == u {
      var i :| 0 <= i < |local| && local[i] == t;
      var j :| 0 <= j < |local| && local[j] == u;
    }
  }

  /** Positions of a set of tracks: their own, and the ones assigned to them. */
  function OwnOf(ts: set<LocalTrack>): set<Slot> {
    set t | t in ts :: Own(t)
  }

  function AssignedTo(ts: set<LocalTrack>, m: Matches): set<Slot>
    requires forall t :: t in ts ==> t.id in m
  {
    set t | t in ts :: Place(m[t.id])
  }

  lemma PermutedPositions(local: seq<LocalTrack>, m: Matches)
    requires m.Keys == Ids(local) && Targets(m) == OwnSlots(local)
    requires forall t, u :: t in local && u in local && t.id == u.id ==> t == u
    requires forall t, u :: t in local && u in local && Own(t) == Own(u) ==> t == u
    requires forall a, b :: a in m && b in m && a != b ==> Place(m[a]) != Place(m[b])
    ensures AssignedTo(Moved(local, m), m) == OwnOf(Moved(local, m))
  {
    var moved := Moved(local, m);
    forall k | k in AssignedTo(moved, m) ensures k in OwnOf(moved) {
      var t :| t in moved && Place(m[t.id]) == k;
      assert k in Targets(m);
      var u :| u in local && Own(u) == k;
      assert u in moved;
    }
    forall k | k in OwnOf(moved) ensures k in AssignedTo(moved, m) {
      var u :| u in moved && Own(u) == k;
      assert k in OwnSlots(local);
      var id :| id in m && Place(m[id]) == k;
      var t :| t in local && t.id == id;
      assert t in moved;
    }
  }

  lemma LackingBound(norm: Title, authoritative: bool, local: seq<LocalTrack>, m: Matches, second: Progress)
    requires m.Keys == Ids(local) && |m| == |local| && second.matched.Keys <= m.Keys
    requires |second.matched| * 5 >= |local| * 4
    requires forall t :: t in local && t.id in second.matched ==> Evidenced(norm, authoritative, t, m[t.id])
    ensures |Lacking(norm, authoritative, local, m)| * 5 <= |local|
  {
    var without := m.Keys - second.matched.Keys;
    SubsetCardinality(Lacking(norm, authoritative, local, m), without);
    assert |without| == |m.Keys| - |second.matched.Keys|;
  }

  /** Completeness where every track has evidence in place (in particular for an
      authoritative release): the union is accepted exactly when the shapes agree, and
      then every track keeps its own position. */
  lemma EvidencedUnionAccepted(norm: Title, local: seq<LocalTrack>, release: Release)
    requires local != [] && |local| == |release.tracks| && Layout(release.tracks).Some?
    requires forall t :: t in local && Own(t) in Layout(release.tracks).value ==>
               InPlace(norm, release.authoritative, t, Layout(release.tracks).value[Own(t)])
    ensures var board := Layout(release.tracks).value;
            Match(norm, local, release).Some? <==> Contiguous(board.Keys) && Seated(local, board) && DistinctIds(local)
    ensures Match(norm, local, release).Some? ==>
              forall t :: t in local ==> t.id in Match(norm, local, release).value &&
                                         Place(Match(norm, local, release).value[t.id]) == Own(t)
  {
    var board := Layout(release.tracks).value;
    if Contiguous(board.Keys) && Seated(local, board) && DistinctIds(local) {
      AllInPlace(norm, release.authoritative, local, board);
      FirstPassCounts(norm, local, release, board);
      forall t | t in local
        ensures t.id in Match(norm, local, release).value && Place(Match(norm, local, release).value[t.id]) == Own(t)
      {
        EachAtItsPlace(norm, release.authoritative, local, board, t);
      }
    } else if Match(norm, local, release).Some? {
      AcceptedIdsDistinct(norm, local, release);
    }
  }

  lemma {:induction false} AllInPlace(norm: Title, auth: bool, local: seq<LocalTrack>, board: Board)
    requires forall t :: t in local ==> Own(t) in board && InPlace(norm, auth, t, board[Own(t)])
    ensures var p := FirstPass(norm, auth, local, board); p.rest == [] && p.matched.Keys == Ids(local)
  {
    hide InPlace;
    if local != [] {
      var prefix, t := local[..|local| - 1], local[|local| - 1];
      AllInPlace(norm, auth, prefix, board);
      assert local == prefix + [t];
      assert Ids(local) == Ids(prefix) + {t.id};
    }
  }

  lemma {:induction false} EachAtItsPlace(norm: Title, auth: bool, local: seq<LocalTrack>, board: Board, t: LocalTrack)
    requires forall u :: u in local ==> Own(u) in board && InPlace(norm, auth, u, board[Own(u)])
    requires (forall k :: k in board ==> Place(board[k]) == k) && DistinctIds(local) && t in local
    ensures var p := FirstPass(norm, auth, local, board); t.id in p.matched && Place(p.matched[t.id]) == Own(t)
  {
    hide InPlace;
    var prefix, last := local[..|local| - 1], local[|local| - 1];
    assert local == prefix + [last];
    if t.id == last.id {
      SameId(local, last, t);
    } else {
      EachAtItsPlace(norm, auth, prefix, board, t);
    }
  }

  lemma FirstPassCounts(norm: Title, local: seq<LocalTrack>, release: Release, board: Board)
    requires local != [] && |local| == |release.tracks| && Layout(release.tracks) == Some(board)
    requires Contiguous(board.Keys) && Seated(local, board) && DistinctIds(local)
    requires FirstPass(norm, release.authoritative, local, board).rest == []
    requires FirstPass(norm, release.authoritative, local, board).matched.Keys == Ids(local)
    ensures Match(norm, local, release) == Some(FirstPass(norm, release.authoritative, local, board).matched)
  {
    hide Contiguous, Layout;
    DistinctSize(local, (t: LocalTrack) => t.id, Ids(local));
  }

  // ---------------------------------------------------------------------
  // The algorithm

  function Range(n: nat): (r: set<int>)
    ensures |r| == n && forall x :: x in r <==> 1 <= x <= n
  {
    if n == 0 then {} else Range(n - 1) + {n}
  }

  function OnDisc(slots: set<Slot>, d: int): set<int> {
    set k | k in slots && k.disc == d :: k.index
  }

  /** Counting the positions of each disc and checking 1..count is the same as contiguity. */
  lemma CountedDiscs(slots: set<Slot>)
    requires forall k :: k in slots ==> k.index > 0
    ensures Contiguous(slots) <==>
            forall k :: k in slots ==> forall p :: 1 <= p <= |OnDisc(slots, k.disc)| ==> p in OnDisc(slots, k.disc)
  {
    if Contiguous(slots) {
      forall k, p | k in slots && 1 <= p <= |OnDisc(slots, k.disc)| ensures p in OnDisc(slots, k.disc) {
        var ps := OnDisc(slots, k.disc);
        if p !in ps {
          forall x | x in ps ensures x in Range(p - 1) {
            assert Slot(k.disc, x) in slots;
            assert x >= p ==> Slot(k.disc, p) in slots;
          }
          SubsetCardinality(ps, Range(p - 1));
        }
      }
    }
    if forall k :: k in slots ==> forall p :: 1 <= p <= |OnDisc(slots, k.disc)| ==> p in OnDisc(slots, k.disc) {
      forall k, p | k in slots && 1 <= p <= k.index ensures Slot(k.disc, p) in slots {
        var ps := OnDisc(slots, k.disc);
        assert Range(|ps|) <= ps;
        SubsetCardinality(Range(|ps|), ps);
        assert k.index in ps;
        assert p in ps;
      }
    }
  }

  ghost predicate Counts(perDisc: map<int, set<int>>, slots: set<Slot>) {
    && (forall k :: k in slots ==> k.disc in perDisc)
    && (forall d :: d in perDisc ==> perDisc[d] == OnDisc(slots, d) && perDisc[d] != {})
  }

  lemma CountOneMore(perDisc: map<int, set<int>>, slots: set<Slot>, key: Slot)
    requires Counts(perDisc, slots)
    ensures Counts(perDisc[key.disc := (if key.disc in perDisc then perDisc[key.disc] else {}) + {key.index}], slots + {key})
  {
    forall d ensures OnDisc(slots + {key}, d) == OnDisc(slots, d) + (if d == key.disc then {key.index} else {}) {}
  }

  /** The first i tracks are indexed by position, and counted by disc. */
  ghost predicate Indexed(tracks: seq<CanonicalTrack>, i: nat, board: Board, perDisc: map<int, set<int>>)
    requires i <= |tracks|
  {
    Layout(tracks[..i]) == Some(board) && Counts(perDisc, board.Keys)
  }

  lemma IndexNone(tracks: seq<CanonicalTrack>)
    ensures Indexed(tracks, 0, map[], map[])
  {
  }

  lemma IndexOneMore(tracks: seq<CanonicalTrack>, i: nat, board: Board, perDisc: map<int, set<int>>)
    requires i < |tracks| && Indexed(tracks, i, board, perDisc)
    ensures var key := Place(tracks[i]);
            if tracks[i].index <= 0 || key in board then Layout(tracks[..i + 1]).None?
            else
              Indexed(tracks, i + 1, board[key := tracks[i]],
                      perDisc[key.disc := (if key.disc in perDisc then perDisc[key.disc] else {}) + {key.index}])
  {
    hide Counts;
    var key := Place(tracks[i]);
    assert tracks[..i + 1][..i] == tracks[..i];
    assert tracks[..i + 1][i] == tracks[i];
    if tracks[i].index > 0 && key !in board {
      CountOneMore(perDisc, board.Keys, key);
      assert board[key := tracks[i]].Keys == board.Keys + {key};
      assert Layout(tracks[..i + 1]) == Some(board[key := tracks[i]]);
      hide Layout, Place;
    }
  }

  lemma IndexAll(tracks: seq<CanonicalTrack>, board: Board, perDisc: map<int, set<int>>)
    requires Indexed(tracks, |tracks|, board, perDisc)
    ensures Layout(tracks) == Some(board) && Counts(perDisc, board.Keys)
  {
    assert tracks[..|tracks|] == tracks;
  }

  /** Index the release by position; None when a position repeats or is not positive. */
  method IndexRelease(tracks: seq<CanonicalTrack>) returns (board: Option<Board>, perDisc: map<int, set<int>>)
    ensures board == Layout(tracks)
    ensures board.Some? ==> Counts(perDisc, board.value.Keys)
  {
    hide Counts, Layout, Indexed;
    IndexNone(tracks);
    var canonical: Board := map[];
    perDisc := map[];
    var i := 0;
    while i < |tracks|
      invariant 0 <= i <= |tracks| && Indexed(tracks, i, canonical, perDisc)
    {
      var key := Place(tracks[i]);
      IndexOneMore(tracks, i, canonical, perDisc);
      if tracks[i].index <= 0 || key in canonical {
        NoLayout(tracks, i + 1);
        return None, perDisc;
      }
      canonical := canonical[key := tracks[i]];
      perDisc := perDisc[key.disc := (if key.disc in perDisc then perDisc[key.disc] else {}) + {key.index}];
      i := i + 1;
    }
    IndexAll(tracks, canonical, perDisc);
    board := Some(canonical);
  }

  /** The discs are visited in the arbitrary order of map iteration. */
  method DiscsComplete(perDisc: map<int, set<int>>, ghost slots: set<Slot>) returns (ok: bool)
    requires Counts(perDisc, slots) && forall k :: k in slots ==> k.index > 0
    ensures ok <==> Contiguous(slots)
  {
    CountedDiscs(slots);
    var discs: set<int> := perDisc.Keys;
    while discs != {}
      invariant discs <= perDisc.Keys
      invariant forall d, p :: d in perDisc && d !in discs && 1 <= p <= |perDisc[d]| ==> p in perDisc[d]
    {
      SomeId(discs);
      var d :| d in discs;
      var p := 1;
      while p <= |perDisc[d]|
        invariant 1 <= p <= |perDisc[d]| + 1
        invariant forall q :: 1 <= q < p ==> q in perDisc[d]
      {
        if p !in perDisc[d] {
          ghost var x :| x in perDisc[d];
          ghost var k :| k in slots && k.disc == d && k.index == x;
          return false;
        }
        p := p + 1;
      }
      discs := discs - {d};
    }
    ok := true;
  }

  lemma {:induction false} NoLayout(tracks: seq<CanonicalTrack>, n: nat)
    requires n <= |tracks| && Layout(tracks[..n]).None?
    ensures Layout(tracks).None?
    decreases |tracks| - n
  {
    if n < |tracks| {
      assert tracks[..n + 1][..n] == tracks[..n];
      NoLayout(tracks, n + 1);
    } else {
      assert tracks[..n] == tracks;
    }
  }

  /** The free position a track fits, when it is the only one; map iteration again. */
  method UniqueOpening(norm: Title, t: LocalTrack, board: Board, used: set<Slot>) returns (found: Option<Slot>)
    ensures var open := Openings(norm, t, board, used);
            found == if |open| == 1 then Some(Only(open)) else None
  {
    hide Openings, Fits;
    NothingVisited(norm, t, board, used);
    ghost var open := Openings(norm, t, board, used);
    var keys, matches := board.Keys, 0;
    ghost var hits: set<Slot> := {};
    found := None;
    while keys != {}
      invariant keys <= board.Keys && hits == open - keys && |hits| == matches
      invariant if matches == 0 then found.None? else found.Some? && found.value in hits
    {
      var key :| key in keys;
      VisitOne(norm, t, board, used, keys, key, hits);
      if key !in used && Fits(norm, t, board[key]) {
        found, matches, hits := Some(key), matches + 1, hits + {key};
      }
      keys := keys - {key};
    }
    assert hits == open;
    if matches != 1 {
      found := None;
    } else {
      OnlyMember(open, found.value);
    }
  }

  lemma OnlyMember(open: set<Slot>, key: Slot)
    requires |open| == 1 && key in open
    ensures Only(open) == key
  {
  }

  lemma NothingVisited(norm: Title, t: LocalTrack, board: Board, used: set<Slot>)
    ensures Openings(norm, t, board, used) - board.Keys == {}
  {
  }

  lemma VisitOne(norm: Title, t: LocalTrack, board: Board, used: set<Slot>, keys: set<Slot>, key: Slot, hits: set<Slot>)
    requires key in keys && keys <= board.Keys && hits == Openings(norm, t, board, used) - keys
    ensures var open := key !in used && Fits(norm, t, board[key]);
            && Openings(norm, t, board, used) - (keys - {key}) == (if open then hits + {key} else hits)
            && (open ==> |hits + {key}| == |hits| + 1)
  {
    hide Fits;
  }

  lemma SeatOneMore(local: seq<LocalTrack>, i: nat, board: Board)
    requires i < |local| && Seated(local[..i], board)
    ensures Seated(local[..i + 1], board) <==>
              local[i].index > 0 && Own(local[i]) in board && Own(local[i]) !in OwnSlots(local[..i])
    ensures OwnSlots(local[..i + 1]) == OwnSlots(local[..i]) + {Own(local[i])}
    ensures !Seated(local[..i + 1], board) ==> !Seated(local, board)
  {
    var prefix, longer, t := local[..i], local[..i + 1], local[i];
    assert longer == prefix + [t];
    if Own(t) in OwnSlots(prefix) {
      var u :| u in prefix && Own(u) == Own(t);
      var j :| 0 <= j < |prefix| && prefix[j] == u;
      assert Own(longer[j]) == Own(longer[i]);
    } else {
      forall j | 0 <= j < i ensures Own(longer[j]) != Own(longer[i]) {
        assert longer[j] in prefix;
      }
    }
    assert longer[i] in longer;
    if Seated(local, board) {
      forall u | u in longer ensures u in local {}
    }
  }

  /** Check every local position and keep the tracks that have evidence there. */
  method SeatTracks(norm: Title, authoritative: bool, local: seq<LocalTrack>, board: Board) returns (r: Option<Progress>)
    ensures r == if Seated(local, board) then Some(FirstPass(norm, authoritative, local, board)) else None
  {
    var seen: set<Slot>, matched: Matches, used: set<Slot>, unmatched: seq<LocalTrack> := {}, map[], {}, [];
    var i := 0;
    while i < |local|
      invariant 0 <= i <= |local| && seen == OwnSlots(local[..i]) && Seated(local[..i], board)
      invariant FirstPass(norm, authoritative, local[..i], board) == Progress(matched, used, unmatched)
    {
      var track := local[i];
      var key := Own(track);
      SeatOneMore(local, i, board);
      assert local[..i + 1][..i] == local[..i];
      if track.index <= 0 || key !in board || key in seen {
        return None;
      }
      seen := seen + {key};
      if InPlace(norm, authoritative, track, board[key]) {
        matched, used := matched[track.id := board[key]], used + {key};
      } else {
        unmatched := unmatched + [track];
      }
      i := i + 1;
    }
    assert local[..i] == local;
    r := Some(Progress(matched, used, unmatched));
  }

  /** Correct isolated bad indices. */
  method CorrectIndices(norm: Title, first: Progress, board: Board) returns (second: Progress)
    ensures second == SecondPass(norm, first.rest, board, first)
  {
    var unmatched := first.rest;
    second := first.(rest := []);
    var i := 0;
    while i < |unmatched|
      invariant 0 <= i <= |unmatched|
      invariant second == SecondPass(norm, unmatched[..i], board, first)
    {
      var track := unmatched[i];
      assert unmatched[..i + 1][..i] == unmatched[..i];
      var slot := UniqueOpening(norm, track, board, second.used);
      if slot.Some? {
        second := Progress(second.matched[track.id := board[slot.value]], second.used + {slot.value}, second.rest);
      } else {
        second := second.(rest := second.rest + [track]);
      }
      i := i + 1;
    }
    assert unmatched[..i] == unmatched;
  }

  lemma {:induction false} NoThirdPass(todo: seq<LocalTrack>, n: nat, board: Board, start: Progress)
    requires n <= |todo| && forall t :: t in todo ==> Own(t) in board
    requires ThirdPass(todo[..n], board, start).None?
    ensures ThirdPass(todo, board, start).None?
    decreases |todo| - n
  {
    if n < |todo| {
      assert todo[..n + 1][..n] == todo[..n];
      NoThirdPass(todo, n + 1, board, start);
    } else {
      assert todo[..n] == todo;
    }
  }

  /** Let the rest keep their own positions. */
  method KeepPositions(second: Progress, board: Board) returns (third: Option<Progress>)
    requires forall t :: t in second.rest ==> Own(t) in board
    ensures third == ThirdPass(second.rest, board, second)
  {
    var unresolved, p := second.rest, second;
    var i := 0;
    while i < |unresolved|
      invariant 0 <= i <= |unresolved|
      invariant ThirdPass(unresolved[..i], board, second) == Some(p)
    {
      assert unresolved[..i + 1][..i] == unresolved[..i];
      var key := Own(unresolved[i]);
      if key in p.used {
        NoThirdPass(unresolved, i + 1, board, second);
        return None;
      }
      p := p.(matched := p.matched[unresolved[i].id := board[key]], used := p.used + {key});
      i := i + 1;
    }
    assert unresolved[..i] == unresolved;
    third := Some(p);
  }

  /** matchReleaseUnion. Whatever order the maps are iterated in, the answer is Match. */
  method MatchReleaseUnion(norm: Title, local: seq<LocalTrack>, release: Release) returns (r: Option<Matches>)
    ensures r == Match(norm, local, release)
  {
    if |local| == 0 || |local| != |release.tracks| {
      return None;
    }
    var board, perDisc := IndexRelease(release.tracks);
    if board.None? {
      return None;
    }
    var complete := DiscsComplete(perDisc, board.value.Keys);
    if !complete {
      return None;
    }
    var first := SeatTracks(norm, release.authoritative, local, board.value);
    if first.None? {
      return None;
    }
    var second := CorrectIndices(norm, first.value, board.value);
    if |second.matched| * 5 < |local| * 4 {
      return None;
    }
    FirstPassRest(norm, release.authoritative, local, board.value);
    SecondPassRest(norm, first.value.rest, board.value, first.value);
    var third := KeepPositions(second, board.value);
    if third.None? {
      return None;
    }
    r := if |third.value.matched| == |local| then Some(third.value.matched) else None;
  }
}
