/** Small datatypes shared by every model. */
module Common {
  datatype Option<+T> = None | Some(value: T)

  function Min(a: int, b: int): (m: int)
    ensures m <= a && m <= b && (m == a || m == b)
  {
    if a <= b then a else b
  }

  function Max(a: int, b: int): (m: int)
    ensures m >= a && m >= b && (m == a || m == b)
  {
    if a >= b then a else b
  }

  /** Set cardinality is monotone; a subset of full size is the whole set. */
  lemma SubsetCardinality<T>(a: set<T>, b: set<T>)
    requires a <= b
    ensures |a| <= |b|
    ensures |a| == |b| ==> a == b
  {
    assert |b| == |a| + |b - a| by {
      assert b == a + (b - a);
    }
    if |a| == |b| {
      assert b - a == {};
    }
  }

  /** A non-empty set of ids has a member. */
  lemma SomeId(ids: set<int>)
    ensures ids == {} || exists id :: id in ids
  {
    if !exists id :: id in ids {
      assert ids == {};
    }
  }

  /** A non-empty set of ids has a lowest one. */
  lemma {:induction false} Lowest(ids: set<int>) returns (low: int)
    requires ids != {}
    ensures low in ids && forall x :: x in ids ==> low <= x
    decreases |ids|
  {
    SomeId(ids);
    low :| low in ids;
    if ids != {low} {
      assert ids - {low} != {} by { assert ids == {low} + (ids - {low}); }
      var other := Lowest(ids - {low});
      assert forall x :: x in ids ==> x == low || x in ids - {low};
      if other < low { low := other; }
    }
  }

  function Elements(s: seq<int>): set<int> {
    set x | x in s
  }

  predicate NoRepeats(s: seq<int>) {
    forall i, j :: 0 <= i < j < |s| ==> s[i] != s[j]
  }

  lemma {:induction false} NoRepeatsCount(s: seq<int>)
    requires NoRepeats(s)
    ensures |Elements(s)| == |s|
  {
    if s != [] {
      var rest, last := s[..|s| - 1], s[|s| - 1];
      NoRepeatsCount(rest);
      assert Elements(s) == Elements(rest) + {last};
      assert last !in Elements(rest);
    }
  }

  /** The members of a set, in some order. */
  method Enumerate(ids: set<int>) returns (s: seq<int>)
    ensures Elements(s) == ids && NoRepeats(s)
  {
    s := [];
    var rest := ids;
    while rest != {}
      invariant rest <= ids && Elements(s) == ids - rest && NoRepeats(s)
      decreases |rest|
    {
      SomeId(rest);
      var id: int :| id in rest;
      assert Elements(s + [id]) == Elements(s) + {id};
      assert id !in Elements(s);
      s := s + [id];
      rest := rest - {id};
    }
  }

  predicate Ascending(s: seq<int>) {
    forall i, j :: 0 <= i < j < |s| ==> s[i] < s[j]
  }

  method Least(ids: set<int>) returns (low: int)
    requires ids != {}
    ensures low in ids && forall x :: x in ids ==> low <= x
  {
    ghost var lowest := Lowest(ids);
    low :| low in ids && forall x :: x in ids ==> low <= x;
  }

  lemma {:induction false} AppendAscends(s: seq<int>, x: int)
    requires Ascending(s) && forall k :: 0 <= k < |s| ==> s[k] < x
    ensures Ascending(s + [x]) && Elements(s + [x]) == Elements(s) + {x}
  {
  }

  /** The members of a set in ascending order, as an ORDER BY on a key lists them. */
  method Sorted(ids: set<int>) returns (s: seq<int>)
    ensures Elements(s) == ids && Ascending(s)
  {
    hide Elements, Ascending;
    s := [];
    var rest := ids;
    EmptyAscends();
    while rest != {}
      invariant rest <= ids && Elements(s) == ids - rest && Ascending(s)
      invariant forall k, y :: 0 <= k < |s| && y in rest ==> s[k] < y
      decreases |rest|
    {
      var low := Least(rest);
      AppendAscends(s, low);
      s := s + [low];
      rest := rest - {low};
    }
  }

  lemma EmptyAscends()
    ensures Elements([]) == {} && Ascending([])
  {
  }

  /** 1 << n. */
  function Power(n: nat): nat {
    if n == 0 then 1 else 2 * Power(n - 1)
  }

  /** Powers of two: they multiply where their exponents add up. */
  lemma {:induction false} PowerSums(m: nat, n: nat)
    ensures Power(0) == 1 && Power(1) == 2 && Power(m + n) == Power(m) * Power(n)
  {
    if n > 0 {
      PowerSums(m, n - 1);
      assert Power(m + n) == 2 * Power(m + n - 1);
    }
  }

  method Shift(n: nat) returns (r: nat)
    ensures r == Power(n)
  {
    r := 1;
    var i := 0;
    while i < n
      invariant 0 <= i <= n && r == Power(i)
    {
      r := 2 * r;
      i := i + 1;
    }
  }

  /** A disc that is not given is the first. */
  function DiscNumber(v: int): int {
    if v <= 0 then 1 else v
  }

  /** Durations in milliseconds; an unknown one is close to every other. */
  predicate DurationClose(a: int, b: int) {
    a == 0 || b == 0 || (a - b < 3000 && b - a < 3000)
  }
}
