/** Keyset pagination: internal/store/library_changes_snapshot.go, library.go (keysetClause)
    and profile_data.go (ListLoves, ListPlaylistItems).

    A table is the list of matching rows in the query's sort order. `after(c, x)` is the
    cursor comparison of the WHERE clause: row x lies beyond a cursor taken at row c. */
module Keyset {
  import opened Common

  /** The cursor comparison agrees with the sort order of the table. */
  ghost predicate Agrees<T(!new)>(table: seq<T>, after: (T, T) -> bool) {
    forall i, j :: 0 <= i < |table| && 0 <= j < |table| ==> (after(table[i], table[j]) <==> i < j)
  }

  /** The rows a WHERE clause keeps, in table order. */
  function Matching<T>(table: seq<T>, where: T -> bool): (r: seq<T>)
    ensures |r| <= |table|
  {
    if table == [] then []
    else
      var rest := Matching(table[1..], where);
      if where(table[0]) then [table[0]] + rest else rest
  }

  lemma {:induction false} MatchingAppend<T>(a: seq<T>, b: seq<T>, where: T -> bool)
    ensures Matching(a + b, where) == Matching(a, where) + Matching(b, where)
  {
    if a == [] {
      assert a + b == b;
    } else {
      assert (a + b)[1..] == a[1..] + b;
      MatchingAppend(a[1..], b, where);
    }
  }

  /** One page: read at most limit+1 matching rows, keep limit of them, and report whether
      a further row exists. */
  method ReadPage<T>(table: seq<T>, where: T -> bool, limit: nat) returns (page: seq<T>, more: bool)
    requires limit >= 1
    ensures page == Matching(table, where)[..Min(limit, |Matching(table, where)|)]
    ensures more <==> |Matching(table, where)| > limit
  {
    page := [];
    var i := 0;
    while i < |table| && |page| < limit + 1
      invariant 0 <= i <= |table|
      invariant |page| <= limit + 1
      invariant page == Matching(table[..i], where)
    {
      MatchingAppend(table[..i], [table[i]], where);
      assert table[..i + 1] == table[..i] + [table[i]];
      if where(table[i]) {
        page := page + [table[i]];
      }
      i := i + 1;
    }
    MatchingAppend(table[..i], table[i..], where);
    assert table == table[..i] + table[i..];
    more := |page| > limit;
    if more {
      page := page[..limit];
    }
  }

  /** The WHERE clause of a request carrying `cursor`. */
  function Beyond<T>(after: (T, T) -> bool, cursor: Option<T>): T -> bool {
    x => cursor.None? || after(cursor.value, x)
  }

  /** Follow cursors for at most `pages` requests: the rows received, and whether the last
      page said there is no further one. */
  function Drain<T>(table: seq<T>, after: (T, T) -> bool, limit: nat, cursor: Option<T>, pages: nat): (seq<T>, bool)
    requires limit >= 1
    decreases pages
  {
    if pages == 0 then ([], false)
    else
      var m := Matching(table, Beyond(after, cursor));
      if |m| <= limit then (m, true)
      else
        var (rest, done) := Drain(table, after, limit, Some(m[limit - 1]), pages - 1);
        (m[..limit] + rest, done)
  }

  lemma {:induction false} MatchingSuffix<T>(table: seq<T>, where: T -> bool, k: nat)
    requires k <= |table|
    requires forall j :: 0 <= j < k ==> !where(table[j])
    requires forall j :: k <= j < |table| ==> where(table[j])
    ensures Matching(table, where) == table[k..]
  {
    if table == [] {
    } else if k == 0 {
      MatchingSuffix(table[1..], where, 0);
      assert table == [table[0]] + table[1..];
    } else {
      MatchingSuffix(table[1..], where, k - 1);
      assert table[1..][k - 1..] == table[k..];
    }
  }

  /** `cursor` was handed out after the first k rows. */
  ghost predicate CursorAt<T>(table: seq<T>, cursor: Option<T>, k: nat)
  {
    k <= |table| && if k == 0 then cursor.None? else cursor == Some(table[k - 1])
  }

  lemma MatchingBeyond<T(!new)>(table: seq<T>, after: (T, T) -> bool, cursor: Option<T>, k: nat)
    requires CursorAt(table, cursor, k) && Agrees(table, after)
    ensures Matching(table, Beyond(after, cursor)) == table[k..]
  {
    var where := Beyond(after, cursor);
    forall j | 0 <= j < |table| ensures where(table[j]) <==> j >= k {
      if k > 0 { assert after(table[k - 1], table[j]) <==> k - 1 < j; }
    }
    MatchingSuffix(table, where, k);
  }

  /** Rows covered by `pages` full pages. */
  function Reach(limit: nat, pages: nat): nat {
    if pages == 0 then 0 else limit + Reach(limit, pages - 1)
  }

  lemma {:induction false} SplitSuffix<T>(table: seq<T>, k: nat, limit: nat)
    requires limit >= 1 && k + limit <= |table|
    ensures table[k..][..limit] + table[k + limit..] == table[k..]
    ensures table[k..][limit - 1] == table[k + limit - 1]
  {
  }

  lemma {:induction false} DrainSuffix<T(!new)>(table: seq<T>, after: (T, T) -> bool, limit: nat,
                                                cursor: Option<T>, k: nat, pages: nat)
    requires limit >= 1 && CursorAt(table, cursor, k) && Agrees(table, after)
    ensures Drain(table, after, limit, cursor, pages).1 <==> pages >= 1 && k + Reach(limit, pages) >= |table|
    ensures Drain(table, after, limit, cursor, pages).1 ==> Drain(table, after, limit, cursor, pages).0 == table[k..]
    decreases pages
  {
    if pages > 0 {
      MatchingBeyond(table, after, cursor, k);
      if |table| - k > limit {
        SplitSuffix(table, k, limit);
        DrainSuffix(table, after, limit, Some(table[k + limit - 1]), k + limit, pages - 1);
      }
    }
  }

  /** Paging is exact: when cursor comparison agrees with the sort order, following cursors
      delivers every row once, in order, and stops after exactly as many pages as are needed. */
  lemma {:induction false} PagingIsExact<T(!new)>(table: seq<T>, after: (T, T) -> bool, limit: nat, pages: nat)
    requires limit >= 1 && Agrees(table, after)
    ensures var r := Drain(table, after, limit, None, pages);
            (r.1 <==> pages >= 1 && Reach(limit, pages) >= |table|) && (r.1 ==> r.0 == table)
  {
    DrainSuffix(table, after, limit, None, 0, pages);
    assert table[0..] == table;
  }

  // ---------------------------------------------------------------------
  // Exactly when paging is exact

  /** At every page size, a client that was told there is nothing further holds the table. */
  ghost predicate ExactPaging<T(!new)>(table: seq<T>, after: (T, T) -> bool) {
    forall limit: nat, pages: nat :: limit >= 1 && Drain(table, after, limit, None, pages).1 ==>
      Drain(table, after, limit, None, pages).0 == table
  }

  /** The cursor comparison is some strict order, not necessarily the order of the table. */
  ghost predicate StrictOrder<T(!new)>(after: (T, T) -> bool) {
    (forall x :: !after(x, x)) && forall x, y, z :: after(x, y) && after(y, z) ==> after(x, z)
  }

  /** Each row lies beyond the row before it. */
  predicate AscendsFrom<T>(cursor: Option<T>, rows: seq<T>, after: (T, T) -> bool) {
    && (rows != [] && cursor.Some? ==> after(cursor.value, rows[0]))
    && forall i :: 0 <= i < |rows| - 1 ==> after(rows[i], rows[i + 1])
  }

  lemma {:induction false} MatchingMembers<T>(table: seq<T>, where: T -> bool)
    ensures forall x :: x in Matching(table, where) ==> x in table && where(x)
  {
    if table != [] {
      MatchingMembers(table[1..], where);
      assert forall x :: x in table[1..] ==> x in table;
    }
  }

  /** Read one row a page, every delivered row lies beyond the one before. */
  lemma {:induction false} SingleRowsAscend<T>(table: seq<T>, after: (T, T) -> bool, cursor: Option<T>, pages: nat)
    ensures AscendsFrom(cursor, Drain(table, after, 1, cursor, pages).0, after)
    decreases pages
  {
    var m := Matching(table, Beyond(after, cursor));
    MatchingMembers(table, Beyond(after, cursor));
    if m != [] {
      assert m[0] in m;
    }
    if pages > 0 && |m| > 1 {
      SingleRowsAscend(table, after, Some(m[0]), pages - 1);
      var rest := Drain(table, after, 1, Some(m[0]), pages - 1).0;
      assert m[..1] + rest == [m[0]] + rest;
    }
  }

  lemma {:induction false} NarrowerMatching<T>(table: seq<T>, wide: T -> bool, narrow: T -> bool)
    requires forall x :: x in table && narrow(x) ==> wide(x)
    ensures |Matching(table, narrow)| <= |Matching(table, wide)|
    ensures (exists x :: x in table && wide(x) && !narrow(x)) ==> |Matching(table, narrow)| < |Matching(table, wide)|
  {
    if table != [] {
      assert table == [table[0]] + table[1..];
      NarrowerMatching(table[1..], wide, narrow);
    }
  }

  /** Read one row a page, the client is told the end after at most as many pages as rows match. */
  lemma {:induction false} SingleRowsEnd<T(!new)>(table: seq<T>, after: (T, T) -> bool, cursor: Option<T>, pages: nat)
    requires StrictOrder(after) && pages >= 1 && pages >= |Matching(table, Beyond(after, cursor))|
    ensures Drain(table, after, 1, cursor, pages).1
    decreases pages
  {
    var m := Matching(table, Beyond(after, cursor));
    if |m| > 1 {
      MatchingMembers(table, Beyond(after, cursor));
      assert m[0] in m;
      NarrowerMatching(table, Beyond(after, cursor), Beyond(after, Some(m[0])));
      SingleRowsEnd(table, after, Some(m[0]), pages - 1);
    }
  }

  lemma {:induction false} AscendingAgrees<T(!new)>(table: seq<T>, after: (T, T) -> bool)
    requires StrictOrder(after) && forall i :: 0 <= i < |table| - 1 ==> after(table[i], table[i + 1])
    ensures Agrees(table, after)
  {
    forall i, j | 0 <= i < j < |table|
      ensures after(table[i], table[j])
    {
      ChainReaches(table, after, i, j);
    }
  }

  lemma {:induction false} ChainReaches<T(!new)>(table: seq<T>, after: (T, T) -> bool, i: nat, j: nat)
    requires StrictOrder(after) && forall k :: 0 <= k < |table| - 1 ==> after(table[k], table[k + 1])
    requires i < j < |table|
    ensures after(table[i], table[j])
    decreases j
  {
    assert after(table[j - 1], table[j - 1 + 1]);
    if i < j - 1 { ChainReaches(table, after, i, j - 1); }
  }

  /** Whatever strict order the cursor compares by, paging is exact at every page size if and
      only if each row of the table lies beyond the row before it. */
  lemma {:induction false} PagingIsExactIff<T(!new)>(table: seq<T>, after: (T, T) -> bool)
    requires StrictOrder(after)
    ensures ExactPaging(table, after) <==> forall i :: 0 <= i < |table| - 1 ==> after(table[i], table[i + 1])
  {
    if ExactPaging(table, after) {
      var pages := |table| + 1;
      SingleRowsEnd(table, after, None, pages);
      SingleRowsAscend(table, after, None, pages);
      assert Drain(table, after, 1, None, pages).0 == table;
    }
    if forall i :: 0 <= i < |table| - 1 ==> after(table[i], table[i + 1]) {
      AscendingAgrees(table, after);
      forall limit: nat, pages: nat | limit >= 1 && Drain(table, after, limit, None, pages).1
        ensures Drain(table, after, limit, None, pages).0 == table
      {
        PagingIsExact(table, after, limit, pages);
      }
    }
  }

  // ---------------------------------------------------------------------
  // The three concrete orders

  /** Key descending, id ascending: "newest first" lists such as ListLoves. */
  datatype Keyed = Keyed(key: int, id: int)

  predicate NewestAfter(c: Keyed, x: Keyed) {
    x.key < c.key || (x.key == c.key && x.id > c.id)
  }

  lemma {:induction false} NewestFirstPaging(table: seq<Keyed>, limit: nat, pages: nat)
    requires limit >= 1
    requires forall i, j :: 0 <= i < j < |table| ==>
               table[i].key > table[j].key || (table[i].key == table[j].key && table[i].id < table[j].id)
    ensures var r := Drain(table, NewestAfter, limit, None, pages);
            (r.1 <==> pages >= 1 && Reach(limit, pages) >= |table|) && (r.1 ==> r.0 == table)
  {
    assert Agrees(table, NewestAfter) by {
      forall i, j | 0 <= i < |table| && 0 <= j < |table|
        ensures NewestAfter(table[i], table[j]) <==> i < j
      {
        if j < i { assert NewestAfter(table[j], table[i]); }
      }
    }
    PagingIsExact(table, NewestAfter, limit, pages);
  }

  /** Decimal digits of a playlist position, most significant first. */
  function Digits(n: nat): (d: seq<nat>)
    ensures |d| >= 1 && (n >= 10 ==> |d| >= 2)
  {
    if n < 10 then [n] else Digits(n / 10) + [n % 10]
  }

  /** Text comparison of two digit strings. */
  predicate TextLess(a: seq<nat>, b: seq<nat>) {
    if b == [] then false
    else if a == [] then true
    else a[0] < b[0] || (a[0] == b[0] && TextLess(a[1..], b[1..]))
  }

  /** ListPlaylistItems sorts by numeric position but its cursor compares positions as text. */
  predicate PlaylistAfter(c: Keyed, x: Keyed)
    requires c.key >= 0 && x.key >= 0
  {
    TextLess(Digits(c.key), Digits(x.key)) || (Digits(c.key) == Digits(x.key) && x.id > c.id)
  }

  type Item = k: Keyed | k.key >= 0 witness Keyed(0, 0)

  predicate ItemAfter(c: Item, x: Item) {
    PlaylistAfter(c, x)
  }

  /** Text order: at the first place where two strings differ, one has ended or has the lower digit. */
  lemma {:induction false} TextLessAtFirstDifference(a: seq<nat>, b: seq<nat>)
    ensures TextLess(a, b) <==> exists k :: 0 <= k <= |a| && k < |b| && a[..k] == b[..k] && (k == |a| || a[k] < b[k])
  {
    if a != [] && b != [] {
      var x, y := a[1..], b[1..];
      TextLessAtFirstDifference(x, y);
      if a[0] == b[0] && TextLess(x, y) {
        var k :| 0 <= k <= |x| && k < |y| && x[..k] == y[..k] && (k == |x| || x[k] < y[k]);
        assert a[..k + 1] == [a[0]] + x[..k] && b[..k + 1] == [b[0]] + y[..k];
      }
      if k :| 0 <= k <= |a| && k < |b| && a[..k] == b[..k] && (k == |a| || a[k] < b[k]) {
        if k > 0 {
          assert a[..k][0] == b[..k][0];
          assert x[..k - 1] == a[..k][1..] && y[..k - 1] == b[..k][1..];
        }
      }
      if a[0] < b[0] {
        assert a[..0] == b[..0];
      }
    } else if b != [] {
      assert a[..0] == b[..0];
    }
  }

  /** The number a digit string stands for. */
  function Value(d: seq<nat>): nat {
    if d == [] then 0 else 10 * Value(d[..|d| - 1]) + d[|d| - 1]
  }

  /** Digits writes a number in decimal, without leading zeros. */
  lemma {:induction false} DigitsAreDecimal(n: nat)
    ensures Value(Digits(n)) == n && (forall d :: d in Digits(n) ==> d < 10) && (n > 0 ==> Digits(n)[0] > 0)
  {
    if n >= 10 {
      DigitsAreDecimal(n / 10);
      var rest := Digits(n / 10);
      assert Digits(n)[..|rest|] == rest;
    } else {
      assert [n][..0] == [];
    }
  }

  lemma {:induction false} TextLessIrreflexive(a: seq<nat>)
    ensures !TextLess(a, a)
  {
    if a != [] { TextLessIrreflexive(a[1..]); }
  }

  lemma {:induction false} TextLessAppend(a: seq<nat>, b: seq<nat>, p: nat, q: nat)
    requires |a| == |b|
    requires TextLess(a, b) || (a == b && p < q)
    ensures TextLess(a + [p], b + [q])
  {
    if a != [] {
      assert (a + [p])[1..] == a[1..] + [p] && (b + [q])[1..] == b[1..] + [q];
      if a[0] == b[0] {
        TextLessAppend(a[1..], b[1..], p, q);
      }
    }
  }

  lemma {:induction false} SameWidthTextOrder(m: nat, n: nat)
    requires m < n && |Digits(m)| == |Digits(n)|
    ensures TextLess(Digits(m), Digits(n))
  {
    if n < 10 {
    } else {
      if m / 10 < n / 10 {
        SameWidthTextOrder(m / 10, n / 10);
      }
      TextLessAppend(Digits(m / 10), Digits(n / 10), m % 10, n % 10);
    }
  }

  lemma {:induction false} TextLessTransitive(a: seq<nat>, b: seq<nat>, c: seq<nat>)
    requires TextLess(a, b) && TextLess(b, c)
    ensures TextLess(a, c)
  {
    if a != [] && a[0] == b[0] == c[0] {
      TextLessTransitive(a[1..], b[1..], c[1..]);
    }
  }

  lemma ItemsAreOrdered()
    ensures StrictOrder<Item>(ItemAfter)
  {
    forall x: Item
      ensures !ItemAfter(x, x)
    {
      TextLessIrreflexive(Digits(x.key));
    }
    forall x: Item, y: Item, z: Item | ItemAfter(x, y) && ItemAfter(y, z)
      ensures ItemAfter(x, z)
    {
      if TextLess(Digits(x.key), Digits(y.key)) && TextLess(Digits(y.key), Digits(z.key)) {
        TextLessTransitive(Digits(x.key), Digits(y.key), Digits(z.key));
      }
    }
  }

  /** A playlist pages exactly, at every page size, if and only if its positions, listed in
      numeric order, are in text order too: 1, 2, 30 page exactly, and 2, 10 do not. */
  lemma {:induction false} PlaylistPagingIff(table: seq<Item>)
    ensures ExactPaging<Item>(table, ItemAfter) <==>
            forall i :: 0 <= i < |table| - 1 ==>
              TextLess(Digits(table[i].key), Digits(table[i + 1].key)) || (table[i].key == table[i + 1].key && table[i].id < table[i + 1].id)
    ensures ExactPaging<Item>([Keyed(1, 0), Keyed(2, 0), Keyed(30, 0)], ItemAfter)
    ensures !ExactPaging<Item>([Keyed(2, 0), Keyed(10, 0)], ItemAfter)
  {
    ItemsAreOrdered();
    PagingIsExactIff<Item>(table, ItemAfter);
    forall i | 0 <= i < |table| - 1 && Digits(table[i].key) == Digits(table[i + 1].key)
      ensures table[i].key == table[i + 1].key
    {
      DigitsInjective(table[i].key, table[i + 1].key);
    }
    var good: seq<Item>, bad: seq<Item> := [Keyed(1, 0), Keyed(2, 0), Keyed(30, 0)], [Keyed(2, 0), Keyed(10, 0)];
    PagingIsExactIff<Item>(good, ItemAfter);
    PagingIsExactIff<Item>(bad, ItemAfter);
    assert Digits(30) == [3, 0] && Digits(10) == [1, 0];
    assert !ItemAfter(bad[0], bad[0 + 1]);
  }

  /** A playlist whose positions all have the same number of digits pages exactly. */
  lemma {:induction false} SameWidthPlaylistPaging(table: seq<Item>, limit: nat, pages: nat)
    requires limit >= 1
    requires forall i, j :: 0 <= i < j < |table| ==>
               table[i].key < table[j].key || (table[i].key == table[j].key && table[i].id < table[j].id)
    requires forall i, j :: 0 <= i < |table| && 0 <= j < |table| ==> |Digits(table[i].key)| == |Digits(table[j].key)|
    ensures ExactPaging<Item>(table, ItemAfter)
    ensures var r := Drain(table, ItemAfter, limit, None, pages);
            (r.1 <==> pages >= 1 && Reach(limit, pages) >= |table|) && (r.1 ==> r.0 == table)
  {
    ItemsAreOrdered();
    forall i | 0 <= i < |table| - 1
      ensures ItemAfter(table[i], table[i + 1])
    {
      if table[i].key < table[i + 1].key {
        SameWidthTextOrder(table[i].key, table[i + 1].key);
      }
    }
    AscendingAgrees<Item>(table, ItemAfter);
    PagingIsExact(table, ItemAfter, limit, pages);
    PagingIsExactIff<Item>(table, ItemAfter);
  }

  lemma {:induction false} DigitsInjective(m: nat, n: nat)
    requires Digits(m) == Digits(n)
    ensures m == n
  {
    if n >= 10 {
      var a, b := Digits(m / 10), Digits(n / 10);
      assert Digits(m) == a + [m % 10] && Digits(n) == b + [n % 10];
      assert a == Digits(m)[..|Digits(m)| - 1] == b;
      assert m % 10 == Digits(m)[|Digits(m)| - 1] == n % 10;
      DigitsInjective(m / 10, n / 10);
    }
  }
}
