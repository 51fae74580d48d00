/** How names come to point to MusicBrainz artists (musicBrainzArtistEvidenceTx,
    internal/store/artist_identity.go): canonical names first, aliases where no canonical name
    claims them, then "canonical (alias)" names. The last pass ranges over a Go map while it
    extends the very table it reads, in whatever order the range takes. Names are the folded
    keys of artistEvidenceKey. */
module ArtistEvidence {
  /** A tagged artist whose aliases are known. */
  datatype Entry = Entry(mbid: int, canonical: string, aliases: seq<string>)

  type Owners = map<string, set<int>>

  function Get(owners: Owners, key: string): set<int> {
    if key in owners then owners[key] else {}
  }

  /** addArtistEvidenceOwner. */
  function Add(owners: Owners, key: string, mbid: int): Owners {
    if key == "" then owners else owners[key := Get(owners, key) + {mbid}]
  }

  function CanonicalOwners(entries: seq<Entry>): Owners {
    if entries == [] then map[]
    else
      var last := entries[|entries| - 1];
      Add(CanonicalOwners(entries[..|entries| - 1]), last.canonical, last.mbid)
  }

  function AddAll(owners: Owners, keys: seq<string>, mbid: int): Owners {
    if keys == [] then owners else Add(AddAll(owners, keys[..|keys| - 1], mbid), keys[|keys| - 1], mbid)
  }

  function AliasOwners(entries: seq<Entry>): Owners {
    if entries == [] then map[]
    else
      var last := entries[|entries| - 1];
      AddAll(AliasOwners(entries[..|entries| - 1]), last.aliases, last.mbid)
  }

  /** Aliases count only where no canonical name has the key. */
  function Base(entries: seq<Entry>): Owners {
    AliasOwners(entries) + CanonicalOwners(entries)
  }

  function Combined(canonical: string, alias: string): string {
    canonical + " (" + alias + ")"
  }

  /** The aliases of one entry, each looked up in the table as extended so far. */
  function CombineAliases(owners: Owners, e: Entry, n: nat): Owners
    requires n <= |e.aliases|
  {
    if n == 0 then owners
    else
      var before := CombineAliases(owners, e, n - 1);
      if Get(before, e.aliases[n - 1]) == {e.mbid} then Add(before, Combined(e.canonical, e.aliases[n - 1]), e.mbid) else before
  }

  function CombineEntry(owners: Owners, e: Entry): Owners {
    if Get(owners, e.canonical) == {e.mbid} then CombineAliases(owners, e, |e.aliases|) else owners
  }

  /** The last pass, in one order of the range. */
  function CombineAll(owners: Owners, order: seq<Entry>): Owners {
    if order == [] then owners
    else CombineEntry(CombineAll(owners, order[..|order| - 1]), order[|order| - 1])
  }

  function Evidence(entries: seq<Entry>, order: seq<Entry>): Owners {
    CombineAll(Base(entries), order)
  }

  // ---------------------------------------------------------------------
  // What holds in every order

  /** `y` owns at least what `x` owns. */
  ghost predicate Extends(x: Owners, y: Owners) {
    forall k :: Get(x, k) <= Get(y, k)
  }

  lemma {:induction false} CombineAliasesExtends(owners: Owners, e: Entry, n: nat)
    requires n <= |e.aliases|
    ensures Extends(owners, CombineAliases(owners, e, n))
  {
    if n > 0 {
      CombineAliasesExtends(owners, e, n - 1);
    }
  }

  lemma {:induction false} CombineAllExtends(owners: Owners, order: seq<Entry>)
    ensures Extends(owners, CombineAll(owners, order))
  {
    if order != [] {
      var before := CombineAll(owners, order[..|order| - 1]);
      CombineAllExtends(owners, order[..|order| - 1]);
      CombineAliasesExtends(before, order[|order| - 1], |order[|order| - 1].aliases|);
    }
  }

  lemma {:induction false} CanonicalIsOwned(entries: seq<Entry>, i: nat)
    requires i < |entries| && entries[i].canonical != ""
    ensures entries[i].canonical in CanonicalOwners(entries)
    ensures entries[i].mbid in CanonicalOwners(entries)[entries[i].canonical]
  {
    if i < |entries| - 1 {
      CanonicalIsOwned(entries[..|entries| - 1], i);
    }
  }

  /** In every order, the canonical name of a tagged artist points to that artist, so evidence
      never singles out another artist for it. */
  lemma {:induction false} CanonicalNameWins(entries: seq<Entry>, order: seq<Entry>, i: nat, mbid: int)
    requires i < |entries| && entries[i].canonical != ""
    ensures entries[i].mbid in Get(Evidence(entries, order), entries[i].canonical)
    ensures Get(Evidence(entries, order), entries[i].canonical) == {mbid} ==> mbid == entries[i].mbid
  {
    CanonicalIsOwned(entries, i);
    CombineAllExtends(Base(entries), order);
    hide CombineAll, CanonicalOwners, AliasOwners;
    assert entries[i].mbid in Get(Base(entries), entries[i].canonical);
  }

  // ---------------------------------------------------------------------
  // When the order does not matter

  predicate IsName(entries: seq<Entry>, key: string) {
    exists i :: 0 <= i < |entries| && (entries[i].canonical == key || key in entries[i].aliases)
  }

  /** No combined name is itself a canonical name or an alias. */
  predicate CombinedNamesAreNew(entries: seq<Entry>) {
    forall i, a :: 0 <= i < |entries| && a in entries[i].aliases ==> !IsName(entries, Combined(entries[i].canonical, a))
  }

  /** The entry combines this alias, judged by the table before the pass. */
  predicate Combines(base: Owners, e: Entry, alias: string, key: string) {
    && alias in e.aliases && Get(base, e.canonical) == {e.mbid} && Get(base, alias) == {e.mbid}
    && Combined(e.canonical, alias) == key && key != ""
  }

  function Gains(base: Owners, e: Entry, n: nat, key: string): set<int>
    requires n <= |e.aliases|
  {
    if exists j :: 0 <= j < n && Combines(base, e, e.aliases[j], key) then {e.mbid} else {}
  }

  function AllGains(base: Owners, order: seq<Entry>, key: string): set<int> {
    set i | 0 <= i < |order| && Gains(base, order[i], |order[i].aliases|, key) != {} :: order[i].mbid
  }

  /** In the table before the pass, f would point its alias's combined name to itself, where it does
      not point yet. */
  predicate Adds(base: Owners, f: Entry, alias: string) {
    && Combines(base, f, alias, Combined(f.canonical, alias)) && f.mbid !in Get(base, Combined(f.canonical, alias))
  }

  /** A combined name of e is the canonical name of f, or this alias of f. */
  predicate Overtakes(base: Owners, e: Entry, f: Entry, alias: string) {
    && e.mbid != f.mbid
    && exists a :: a in e.aliases && (Combines(base, e, a, f.canonical) || Combines(base, e, a, alias))
  }

  /** Some artist can take away a name that another still needs. */
  predicate OrderMatters(entries: seq<Entry>) {
    exists e, f, alias :: e in entries && f in entries && alias in f.aliases &&
      Adds(Base(entries), f, alias) && Overtakes(Base(entries), e, f, alias)
  }

  /** byMBID has one entry for an artist. */
  predicate DistinctArtists(entries: seq<Entry>) {
    forall i, j :: 0 <= i < j < |entries| ==> entries[i].mbid != entries[j].mbid
  }

  /** Names the pass looks up have owners from the start. */
  ghost predicate NamesOwned(entries: seq<Entry>, base: Owners) {
    forall k :: k != "" && IsName(entries, k) ==> Get(base, k) != {}
  }

  lemma {:induction false} AddAllOwns(owners: Owners, keys: seq<string>, mbid: int, key: string)
    requires key != "" && (key in keys || Get(owners, key) != {})
    ensures Get(AddAll(owners, keys, mbid), key) != {}
  {
    if keys != [] {
      var rest, last := keys[..|keys| - 1], keys[|keys| - 1];
      assert keys == rest + [last];
      if key in rest || Get(owners, key) != {} {
        AddAllOwns(owners, rest, mbid, key);
      }
      if key == last {
        assert mbid in Get(AddAll(owners, keys, mbid), key);
      }
    }
  }

  lemma {:induction false} AliasIsOwned(entries: seq<Entry>, i: nat, key: string)
    requires i < |entries| && key != "" && key in entries[i].aliases
    ensures Get(AliasOwners(entries), key) != {}
  {
    var rest, last := entries[..|entries| - 1], entries[|entries| - 1];
    if i < |entries| - 1 {
      AliasIsOwned(rest, i, key);
    }
    AddAllOwns(AliasOwners(rest), last.aliases, last.mbid, key);
  }

  lemma {:induction false} CanonicalOwned(entries: seq<Entry>, key: string)
    ensures key in CanonicalOwners(entries) ==> CanonicalOwners(entries)[key] != {}
  {
    if entries != [] {
      CanonicalOwned(entries[..|entries| - 1], key);
    }
  }

  lemma {:induction false} BaseOwnsNames(entries: seq<Entry>)
    ensures NamesOwned(entries, Base(entries))
  {
    forall k | k != "" && IsName(entries, k)
      ensures Get(Base(entries), k) != {}
    {
      var i :| 0 <= i < |entries| && (entries[i].canonical == k || k in entries[i].aliases);
      CanonicalOwned(entries, k);
      if entries[i].canonical == k {
        CanonicalIsOwned(entries, i);
      } else {
        AliasIsOwned(entries, i, k);
      }
      hide CanonicalOwners, AliasOwners;
    }
  }

  /** The pass so far has given every artist it visited all that the base table grants it. */
  ghost predicate Granted(base: Owners, owners: Owners, done: seq<Entry>) {
    forall k :: Get(owners, k) == Get(base, k) + AllGains(base, done, k)
  }

  /** A name that e needs, and holds alone in the base table, it still holds alone. */
  lemma {:induction false} StillAlone(entries: seq<Entry>, done: seq<Entry>, f: Entry, alias: string, key: string)
    requires !OrderMatters(entries) && f in entries && (forall e :: e in done ==> e in entries)
    requires Adds(Base(entries), f, alias) && (key == f.canonical || key == alias)
    ensures AllGains(Base(entries), done, key) <= {f.mbid}
  {
    var base := Base(entries);
    AddsAlias(base, f, alias);
    hide Base, Adds;
    forall m | m in AllGains(base, done, key)
      ensures m == f.mbid
    {
      var i :| 0 <= i < |done| && Gains(base, done[i], |done[i].aliases|, key) != {} && done[i].mbid == m;
      var e := done[i];
      var j :| 0 <= j < |e.aliases| && Combines(base, e, e.aliases[j], key);
      assert e in done && e.aliases[j] in e.aliases;
      assert m != f.mbid ==> Overtakes(base, e, f, alias);
    }
  }

  lemma AddsAlias(base: Owners, f: Entry, alias: string)
    requires Adds(base, f, alias)
    ensures alias in f.aliases && Get(base, f.canonical) == {f.mbid} && Get(base, alias) == {f.mbid}
  {
  }

  lemma {:induction false} GainsGrow(base: Owners, order: seq<Entry>, key: string)
    requires order != []
    ensures var rest, e := order[..|order| - 1], order[|order| - 1];
            AllGains(base, order, key) == AllGains(base, rest, key) + Gains(base, e, |e.aliases|, key)
  {
    var rest := order[..|order| - 1];
    forall m
      ensures m in AllGains(base, rest, key) ==> m in AllGains(base, order, key)
    {
      if m in AllGains(base, rest, key) {
        var i :| 0 <= i < |rest| && Gains(base, rest[i], |rest[i].aliases|, key) != {} && rest[i].mbid == m;
        assert order[i] == rest[i];
      }
    }
    forall m
      ensures m in AllGains(base, order, key) ==> m in AllGains(base, rest, key) || m in Gains(base, order[|rest|], |order[|rest|].aliases|, key)
    {
      if m in AllGains(base, order, key) {
        var i :| 0 <= i < |order| && Gains(base, order[i], |order[i].aliases|, key) != {} && order[i].mbid == m;
        if i < |rest| {
          assert rest[i] == order[i];
        }
      }
    }
  }

  /** Grows by m only. */
  ghost predicate OnlyBy(x: Owners, y: Owners, m: int) {
    forall k :: Get(x, k) <= Get(y, k) <= Get(x, k) + {m}
  }

  lemma {:induction false} AliasesOnlyBy(owners: Owners, e: Entry, n: nat)
    requires n <= |e.aliases|
    ensures OnlyBy(owners, CombineAliases(owners, e, n), e.mbid)
  {
    if n > 0 {
      AliasesOnlyBy(owners, e, n - 1);
    }
  }

  /** What the lookup of one alias of f says, when nobody can take away a name: either what the
      base table says, or the name to be combined is f's already. */
  lemma {:induction false} AliasLookup(entries: seq<Entry>, done: seq<Entry>, owners: Owners, before: Owners, f: Entry, alias: string)
    requires !OrderMatters(entries) && NamesOwned(entries, Base(entries)) && f in entries && (forall e :: e in done ==> e in entries)
    requires Granted(Base(entries), owners, done) && OnlyBy(owners, before, f.mbid) && "" !in before
    requires alias in f.aliases && Get(Base(entries), f.canonical) == {f.mbid}
    ensures Get(before, alias) == {f.mbid} ==> Get(Base(entries), alias) == {f.mbid}
    ensures Get(Base(entries), alias) == {f.mbid} ==>
              Get(before, alias) == {f.mbid} || f.mbid in Get(before, Combined(f.canonical, alias))
  {
    var base, key := Base(entries), Combined(f.canonical, alias);
    hide Base, AllGains, OrderMatters;
    assert Get(base, alias) <= Get(owners, alias) <= Get(before, alias);
    assert Get(base, key) <= Get(owners, key) <= Get(before, key);
    if Get(base, alias) == {f.mbid} {
      if f.mbid !in Get(base, key) {
        assert key != "";
        assert Adds(base, f, alias);
        StillAlone(entries, done, f, alias, alias);
        assert Get(before, alias) <= Get(owners, alias) + {f.mbid};
      }
    } else if alias != "" {
      var i :| 0 <= i < |entries| && entries[i] == f;
      assert IsName(entries, alias);
      assert Get(base, alias) != {};
    }
  }

  /** One alias of f, when nobody can take away a name. */
  lemma {:induction false} AliasGrants(entries: seq<Entry>, done: seq<Entry>, owners: Owners, f: Entry, n: nat, key: string)
    requires !OrderMatters(entries) && NamesOwned(entries, Base(entries)) && f in entries && (forall e :: e in done ==> e in entries)
    requires Granted(Base(entries), owners, done) && "" !in owners
    requires 0 < n <= |f.aliases| && Get(Base(entries), f.canonical) == {f.mbid}
    ensures Get(CombineAliases(owners, f, n), key) ==
            Get(CombineAliases(owners, f, n - 1), key) + if Combines(Base(entries), f, f.aliases[n - 1], key) then {f.mbid} else {}
  {
    hide Base, OrderMatters, NamesOwned, Granted, OnlyBy, Combined, CombineAliases, Get, Combines, IsName;
    AliasesOnlyBy(owners, f, n - 1);
    EmptyStays(owners, f, n - 1);
    AliasLookup(entries, done, owners, CombineAliases(owners, f, n - 1), f, f.aliases[n - 1]);
    AliasStep(Base(entries), owners, f, n, key);
  }

  lemma {:induction false} AliasStep(base: Owners, owners: Owners, f: Entry, n: nat, key: string)
    requires 0 < n <= |f.aliases| && Get(base, f.canonical) == {f.mbid}
    requires var alias, before := f.aliases[n - 1], CombineAliases(owners, f, n - 1);
             (Get(before, alias) == {f.mbid} ==> Get(base, alias) == {f.mbid}) &&
             (Get(base, alias) == {f.mbid} ==> Get(before, alias) == {f.mbid} || f.mbid in Get(before, Combined(f.canonical, alias)))
    ensures Get(CombineAliases(owners, f, n), key) ==
            Get(CombineAliases(owners, f, n - 1), key) + if Combines(base, f, f.aliases[n - 1], key) then {f.mbid} else {}
  {
    var alias, before := f.aliases[n - 1], CombineAliases(owners, f, n - 1);
    var name := Combined(f.canonical, alias);
    assert alias in f.aliases && name != "";
    assert Combines(base, f, alias, key) <==> Get(base, alias) == {f.mbid} && name == key;
    assert CombineAliases(owners, f, n) == if Get(before, alias) == {f.mbid} then Add(before, name, f.mbid) else before;
    hide CombineAliases, Combines, Combined;
  }

  lemma {:induction false} EmptyStays(owners: Owners, e: Entry, n: nat)
    requires "" !in owners && n <= |e.aliases|
    ensures "" !in CombineAliases(owners, e, n)
  {
    if n > 0 { EmptyStays(owners, e, n - 1); }
  }

  lemma {:induction false} AliasesGrant(entries: seq<Entry>, done: seq<Entry>, owners: Owners, f: Entry, n: nat)
    requires !OrderMatters(entries) && NamesOwned(entries, Base(entries)) && f in entries && (forall e :: e in done ==> e in entries)
    requires Granted(Base(entries), owners, done) && "" !in owners
    requires n <= |f.aliases| && Get(Base(entries), f.canonical) == {f.mbid}
    ensures forall k :: Get(CombineAliases(owners, f, n), k) == Get(owners, k) + Gains(Base(entries), f, n, k)
  {
    hide Base, OrderMatters, NamesOwned, Granted, Combines, Gains;
    if n == 0 {
      NoneYet(Base(entries), f);
    } else {
      AliasesGrant(entries, done, owners, f, n - 1);
      forall k
        ensures Get(CombineAliases(owners, f, n), k) ==
                Get(CombineAliases(owners, f, n - 1), k) + if Combines(Base(entries), f, f.aliases[n - 1], k) then {f.mbid} else {}
      {
        AliasGrants(entries, done, owners, f, n, k);
      }
      GainsStep(Base(entries), f, n);
    }
  }

  lemma {:induction false} NoneYet(base: Owners, f: Entry)
    ensures forall k :: Gains(base, f, 0, k) == {}
  {
  }

  lemma {:induction false} GainsStep(base: Owners, f: Entry, n: nat)
    requires 0 < n <= |f.aliases|
    ensures forall k :: Gains(base, f, n, k) == Gains(base, f, n - 1, k) + if Combines(base, f, f.aliases[n - 1], k) then {f.mbid} else {}
  {
    hide Combines;
  }

  /** One artist, when nobody can take away a name. */
  lemma {:induction false} EntryGrants(entries: seq<Entry>, done: seq<Entry>, owners: Owners, f: Entry)
    requires !OrderMatters(entries) && NamesOwned(entries, Base(entries)) && f in entries && (forall e :: e in done ==> e in entries)
    requires Granted(Base(entries), owners, done) && "" !in owners
    ensures Granted(Base(entries), CombineEntry(owners, f), done + [f])
    ensures "" !in CombineEntry(owners, f)
  {
    var base, n := Base(entries), |f.aliases|;
    EmptyStays(owners, f, n);
    EntryAdds(entries, done, owners, f);
    hide Base, OrderMatters, NamesOwned, CombineEntry, Gains, AllGains, Get;
    forall k
      ensures AllGains(base, done + [f], k) == AllGains(base, done, k) + Gains(base, f, n, k)
    {
      GainsGrow(base, done + [f], k);
      assert (done + [f])[..|done + [f]| - 1] == done;
    }
  }

  lemma {:induction false} EntryAdds(entries: seq<Entry>, done: seq<Entry>, owners: Owners, f: Entry)
    requires !OrderMatters(entries) && NamesOwned(entries, Base(entries)) && f in entries && (forall e :: e in done ==> e in entries)
    requires Granted(Base(entries), owners, done) && "" !in owners
    ensures forall k :: Get(CombineEntry(owners, f), k) == Get(owners, k) + Gains(Base(entries), f, |f.aliases|, k)
  {
    hide Base, OrderMatters, NamesOwned, Granted, Gains, Get, CombineAliases;
    if Get(Base(entries), f.canonical) == {f.mbid} {
      AliasesGrant(entries, done, owners, f, |f.aliases|);
      if Get(owners, f.canonical) != {f.mbid} {
        NothingToGain(entries, done, owners, f);
      }
    } else {
      CanonicalShared(entries, Base(entries), owners, done, f);
    }
  }

  lemma {:induction false} CanonicalShared(entries: seq<Entry>, base: Owners, owners: Owners, done: seq<Entry>, f: Entry)
    requires NamesOwned(entries, base) && f in entries && Granted(base, owners, done) && "" !in owners
    requires Get(base, f.canonical) != {f.mbid}
    ensures Get(owners, f.canonical) != {f.mbid}
    ensures forall k :: Gains(base, f, |f.aliases|, k) == {}
  {
    hide AllGains;
    var i :| 0 <= i < |entries| && entries[i] == f;
    assert IsName(entries, f.canonical);
    assert Get(base, f.canonical) <= Get(owners, f.canonical);
  }

  /** If f's canonical name is shared by now, all it could combine it already owned. */
  lemma {:induction false} NothingToGain(entries: seq<Entry>, done: seq<Entry>, owners: Owners, f: Entry)
    requires !OrderMatters(entries) && f in entries && (forall e :: e in done ==> e in entries)
    requires Granted(Base(entries), owners, done)
    requires Get(Base(entries), f.canonical) == {f.mbid} && Get(owners, f.canonical) != {f.mbid}
    ensures forall k :: Gains(Base(entries), f, |f.aliases|, k) <= Get(owners, k)
  {
    var base := Base(entries);
    forall k
      ensures Gains(base, f, |f.aliases|, k) <= Get(owners, k)
    {
      if Gains(base, f, |f.aliases|, k) != {} {
        var j :| 0 <= j < |f.aliases| && Combines(base, f, f.aliases[j], k);
        if f.mbid !in Get(base, k) {
          assert Adds(base, f, f.aliases[j]);
          StillAlone(entries, done, f, f.aliases[j], f.canonical);
          assert false;
        }
      }
    }
  }

  lemma {:induction false} BaseHasNoEmpty(entries: seq<Entry>)
    ensures "" !in CanonicalOwners(entries) && "" !in AliasOwners(entries)
  {
    if entries != [] {
      var rest, last := entries[..|entries| - 1], entries[|entries| - 1];
      BaseHasNoEmpty(rest);
      AddAllNoEmpty(AliasOwners(rest), last.aliases, last.mbid);
    }
  }

  lemma {:induction false} AddAllNoEmpty(owners: Owners, keys: seq<string>, mbid: int)
    requires "" !in owners
    ensures "" !in AddAll(owners, keys, mbid)
  {
    if keys != [] { AddAllNoEmpty(owners, keys[..|keys| - 1], mbid); }
  }

  lemma {:induction false} PassGrants(entries: seq<Entry>, order: seq<Entry>)
    requires !OrderMatters(entries) && forall e :: e in order ==> e in entries
    ensures Granted(Base(entries), CombineAll(Base(entries), order), order) && "" !in CombineAll(Base(entries), order)
  {
    BaseOwnsNames(entries);
    BaseHasNoEmpty(entries);
    if order == [] {
      hide Base;
    } else {
      var rest, f := order[..|order| - 1], order[|order| - 1];
      assert f in order && rest + [f] == order;
      PassGrants(entries, rest);
      hide Base, OrderMatters, NamesOwned, Granted, CombineEntry;
      EntryGrants(entries, rest, CombineAll(Base(entries), rest), f);
    }
  }

  // ---------------------------------------------------------------------
  // When it does matter

  lemma CombinedInjective(canonical: string, a: string, b: string)
    requires Combined(canonical, a) == Combined(canonical, b)
    ensures a == b
  {
    var n := |canonical| + 2;
    assert Combined(canonical, a)[n..n + |a|] == a && Combined(canonical, b)[n..n + |b|] == b;
    assert |Combined(canonical, a)| == n + |a| + 1 && |Combined(canonical, b)| == n + |b| + 1;
  }

  /** The artist visited first adds all that the base table grants it. */
  lemma {:induction false} FirstAddsAll(base: Owners, e: Entry, alias: string, key: string)
    requires Combines(base, e, alias, key)
    ensures e.mbid in Get(CombineEntry(base, e), key)
  {
    var j :| 0 <= j < |e.aliases| && e.aliases[j] == alias;
    AliasesOnlyBy(base, e, j);
    assert Get(CombineAliases(base, e, j), alias) == {e.mbid};
    assert e.mbid in Get(CombineAliases(base, e, j + 1), key);
    KeepsAlias(base, e, j + 1, |e.aliases|);
  }

  lemma {:induction false} KeepsAlias(owners: Owners, e: Entry, m: nat, n: nat)
    requires m <= n <= |e.aliases|
    ensures Extends(CombineAliases(owners, e, m), CombineAliases(owners, e, n))
  {
    if m < n { KeepsAlias(owners, e, m, n - 1); }
  }

  /** A name that another artist holds as well by now does not come to f. */
  lemma {:induction false} LostName(owners: Owners, f: Entry, alias: string, n: nat, thief: int)
    requires n <= |f.aliases| && thief != f.mbid && f.mbid !in Get(owners, Combined(f.canonical, alias))
    requires thief in Get(owners, alias)
    ensures f.mbid !in Get(CombineAliases(owners, f, n), Combined(f.canonical, alias))
  {
    if n > 0 {
      LostName(owners, f, alias, n - 1, thief);
      AliasesOnlyBy(owners, f, n - 1);
      assert thief in Get(CombineAliases(owners, f, n - 1), alias);
      if f.aliases[n - 1] != alias && Combined(f.canonical, f.aliases[n - 1]) == Combined(f.canonical, alias) {
        CombinedInjective(f.canonical, f.aliases[n - 1], alias);
      }
      hide Combined;
    }
  }

  lemma {:induction false} LostForGood(owners: Owners, order: seq<Entry>, f: Entry, alias: string, name: string, thief: int)
    requires thief != f.mbid && f.mbid !in Get(owners, Combined(f.canonical, alias))
    requires thief in Get(owners, name) && (name == alias || name == f.canonical)
    requires forall g :: g in order && g.mbid == f.mbid ==> g == f
    ensures f.mbid !in Get(CombineAll(owners, order), Combined(f.canonical, alias))
  {
    if order != [] {
      var rest, g := order[..|order| - 1], order[|order| - 1];
      var before := CombineAll(owners, rest);
      LostForGood(owners, rest, f, alias, name, thief);
      CombineAllExtends(owners, rest);
      assert thief in Get(before, name);
      assert g in order;
      AliasesOnlyBy(before, g, |g.aliases|);
      if g == f && name == alias {
        LostName(before, f, alias, |f.aliases|, thief);
      }
      hide CombineAliases, Combined;
    }
  }

  lemma {:induction false} CombineFirst(owners: Owners, e: Entry, rest: seq<Entry>)
    ensures CombineAll(owners, [e] + rest) == CombineAll(CombineEntry(owners, e), rest)
  {
    var order := [e] + rest;
    if rest == [] {
      assert order[..0] == [] && order[|order| - 1] == e;
      assert CombineAll(owners, order[..0]) == owners;
    } else {
      CombineFirst(owners, e, rest[..|rest| - 1]);
      assert order[..|order| - 1] == [e] + rest[..|rest| - 1];
    }
  }

  ghost predicate Visits(order: seq<Entry>, entries: seq<Entry>) {
    multiset(order) == multiset(entries)
  }

  /** The evidence is the same in every order in which the range can visit the artists. */
  ghost predicate OrderIsIrrelevant(entries: seq<Entry>) {
    forall first, second, key :: Visits(first, entries) && Visits(second, entries) ==>
      Get(Evidence(entries, first), key) == Get(Evidence(entries, second), key)
  }

  lemma {:induction false} VisitFirst(entries: seq<Entry>, e: Entry) returns (rest: seq<Entry>)
    requires e in entries
    ensures Visits([e] + rest, entries) && forall x :: x in rest ==> x in entries
  {
    var i :| 0 <= i < |entries| && entries[i] == e;
    rest := entries[..i] + entries[i + 1..];
    assert entries == entries[..i] + [e] + entries[i + 1..];
  }

  lemma {:induction false} VisitsMembers(order: seq<Entry>, entries: seq<Entry>)
    requires Visits(order, entries)
    ensures forall e :: e in order <==> e in entries
  {
    forall e
      ensures e in order <==> e in entries
    {
      assert e in multiset(order) <==> e in multiset(entries);
    }
  }

  lemma {:induction false} ByMbid(entries: seq<Entry>, f: Entry, g: Entry)
    requires DistinctArtists(entries) && f in entries && g in entries && f.mbid == g.mbid
    ensures f == g
  {
    var i :| 0 <= i < |entries| && entries[i] == f;
    var j :| 0 <= j < |entries| && entries[j] == g;
    assert i == j;
  }

  /** e first takes the name from f; f first gets it. */
  lemma {:induction false} TwoOrdersDiffer(entries: seq<Entry>, e: Entry, f: Entry, alias: string)
    requires DistinctArtists(entries) && e in entries && f in entries
    requires Adds(Base(entries), f, alias) && Overtakes(Base(entries), e, f, alias)
    ensures !OrderIsIrrelevant(entries)
  {
    var base, key := Base(entries), Combined(f.canonical, alias);
    var a :| a in e.aliases && (Combines(base, e, a, f.canonical) || Combines(base, e, a, alias));
    var name := if Combines(base, e, a, f.canonical) then f.canonical else alias;
    var afterE := VisitFirst(entries, e);
    var afterF := VisitFirst(entries, f);
    FirstAddsAll(base, e, a, name);
    FirstAddsAll(base, f, alias, key);
    AliasesOnlyBy(base, e, |e.aliases|);
    forall g | g in afterE && g.mbid == f.mbid
      ensures g == f
    {
      ByMbid(entries, f, g);
    }
    hide Base, Combines, Combined, CombineAliases;
    LostForGood(CombineEntry(base, e), afterE, f, alias, name, e.mbid);
    CombineFirst(base, e, afterE);
    CombineFirst(base, f, afterF);
    CombineAllExtends(CombineEntry(base, f), afterF);
    assert f.mbid in Get(Evidence(entries, [f] + afterF), key);
    assert f.mbid !in Get(Evidence(entries, [e] + afterE), key);
  }

  /** The range's order matters for some name if and only if some artist's combined name is the
      canonical name or an alias with which another artist makes a combined name it does not
      own yet. When no combined name is itself a name this never happens. */
  lemma {:induction false} OrderMattersIff(entries: seq<Entry>)
    requires DistinctArtists(entries)
    ensures OrderIsIrrelevant(entries) <==> !OrderMatters(entries)
    ensures CombinedNamesAreNew(entries) ==> !OrderMatters(entries)
  {
    if OrderMatters(entries) {
      var e, f, alias :| e in entries && f in entries && alias in f.aliases &&
        Adds(Base(entries), f, alias) && Overtakes(Base(entries), e, f, alias);
      hide Base, Adds;
      if CombinedNamesAreNew(entries) {
        NewNamesOvertakeNobody(entries, Base(entries), e, f, alias);
      }
      TwoOrdersDiffer(entries, e, f, alias);
    } else {
      hide Base, OrderMatters;
      forall first, second, key | Visits(first, entries) && Visits(second, entries)
        ensures Get(Evidence(entries, first), key) == Get(Evidence(entries, second), key)
      {
        SameEvidence(entries, first, second, key);
      }
    }
  }

  lemma {:induction false} NewNamesOvertakeNobody(entries: seq<Entry>, base: Owners, e: Entry, f: Entry, alias: string)
    requires CombinedNamesAreNew(entries) && e in entries && f in entries && alias in f.aliases
    ensures !Overtakes(base, e, f, alias)
  {
    var i :| 0 <= i < |entries| && entries[i] == e;
    var j :| 0 <= j < |entries| && entries[j] == f;
    assert alias in entries[j].aliases;
    assert IsName(entries, f.canonical) && IsName(entries, alias);
    forall a | a in entries[i].aliases
      ensures !Combines(base, e, a, f.canonical) && !Combines(base, e, a, alias)
    {
    }
  }

  lemma {:induction false} SameEvidence(entries: seq<Entry>, first: seq<Entry>, second: seq<Entry>, key: string)
    requires !OrderMatters(entries) && Visits(first, entries) && Visits(second, entries)
    ensures Get(Evidence(entries, first), key) == Get(Evidence(entries, second), key)
  {
    VisitsMembers(first, entries);
    VisitsMembers(second, entries);
    PassGrants(entries, first);
    PassGrants(entries, second);
    hide Base, CombineAll, Gains, OrderMatters;
    SameGains(Base(entries), first, second, key);
    SameGains(Base(entries), second, first, key);
  }

  lemma {:induction false} SameGains(base: Owners, first: seq<Entry>, second: seq<Entry>, key: string)
    requires forall e :: e in first ==> e in second
    ensures AllGains(base, first, key) <= AllGains(base, second, key)
  {
    hide Gains;
    forall m | m in AllGains(base, first, key)
      ensures m in AllGains(base, second, key)
    {
      var i :| 0 <= i < |first| && Gains(base, first[i], |first[i].aliases|, key) != {} && first[i].mbid == m;
      assert first[i] in first;
      var j :| 0 <= j < |second| && second[j] == first[i];
      assert Gains(base, second[j], |second[j].aliases|, key) != {};
    }
  }

  // ---------------------------------------------------------------------
  // The evidence in names

  /** The artists a name points to before the last pass: those it is the canonical name of, or, if
      there are none, those it is an alias of. */
  ghost predicate Names(entries: seq<Entry>, key: string, m: int) {
    key != "" &&
    if exists i :: 0 <= i < |entries| && entries[i].canonical == key then
      exists i :: 0 <= i < |entries| && entries[i].canonical == key && entries[i].mbid == m
    else exists i :: 0 <= i < |entries| && key in entries[i].aliases && entries[i].mbid == m
  }

  lemma {:induction false} CanonicalInNames(entries: seq<Entry>, key: string, m: int)
    ensures m in Get(CanonicalOwners(entries), key) <==>
            key != "" && exists i :: 0 <= i < |entries| && entries[i].canonical == key && entries[i].mbid == m
    ensures key in CanonicalOwners(entries) <==> key != "" && exists i :: 0 <= i < |entries| && entries[i].canonical == key
  {
    if entries != [] {
      var rest := entries[..|entries| - 1];
      CanonicalInNames(rest, key, m);
      assert entries == rest + [entries[|rest|]];
      assert forall i :: 0 <= i < |rest| ==> entries[i] == rest[i];
    }
  }

  lemma {:induction false} AddedInNames(owners: Owners, keys: seq<string>, mbid: int, key: string, m: int)
    ensures m in Get(AddAll(owners, keys, mbid), key) <==> m in Get(owners, key) || (key != "" && key in keys && m == mbid)
  {
    if keys != [] {
      var rest := keys[..|keys| - 1];
      AddedInNames(owners, rest, mbid, key, m);
      assert keys == rest + [keys[|rest|]];
    }
  }

  lemma {:induction false} AliasInNames(entries: seq<Entry>, key: string, m: int)
    ensures m in Get(AliasOwners(entries), key) <==>
            key != "" && exists i :: 0 <= i < |entries| && key in entries[i].aliases && entries[i].mbid == m
  {
    if entries != [] {
      var rest, last := entries[..|entries| - 1], entries[|entries| - 1];
      AliasInNames(rest, key, m);
      AddedInNames(AliasOwners(rest), last.aliases, last.mbid, key, m);
      assert entries == rest + [last];
      assert forall i :: 0 <= i < |rest| ==> entries[i] == rest[i];
      hide AddAll;
    }
  }

  lemma {:induction false} BaseInNames(entries: seq<Entry>, key: string, m: int)
    ensures m in Get(Base(entries), key) <==> Names(entries, key, m)
  {
    CanonicalInNames(entries, key, m);
    AliasInNames(entries, key, m);
    hide CanonicalOwners, AliasOwners;
  }

  /** Only this artist. */
  ghost predicate Alone(entries: seq<Entry>, key: string, m: int) {
    forall x :: Names(entries, key, x) <==> x == m
  }

  lemma {:induction false} BaseAlone(entries: seq<Entry>, key: string, m: int)
    ensures Get(Base(entries), key) == {m} <==> Alone(entries, key, m)
  {
    forall x
      ensures x in Get(Base(entries), key) <==> Names(entries, key, x)
    {
      BaseInNames(entries, key, x);
    }
    hide Base, Names;
    var owners := Get(Base(entries), key);
    if Alone(entries, key, m) {
      assert forall x :: x in owners <==> x == m;
      assert owners == {m};
    }
  }

  /** Where no combined name is itself a name, the whole evidence: whatever the order of the last
      pass, a name points to the artists it names, and "name (alias)" also to the one artist
      whom both its name and its alias point to alone. */
  lemma {:induction false} EvidenceInNames(entries: seq<Entry>, order: seq<Entry>, key: string, m: int)
    requires Visits(order, entries)
    requires forall i, j, a :: 0 <= i < |entries| && 0 <= j < |entries| && a in entries[i].aliases ==>
               var combined := entries[i].canonical + " (" + a + ")";
               combined != entries[j].canonical && combined !in entries[j].aliases
    ensures m in Get(Evidence(entries, order), key) <==>
            || Names(entries, key, m)
            || exists e, a :: e in entries && e.mbid == m && a in e.aliases && key == e.canonical + " (" + a + ")" &&
                              Alone(entries, e.canonical, m) && Alone(entries, a, m)
  {
    NeverOvertaken(entries);
    VisitsMembers(order, entries);
    PassGrants(entries, order);
    BaseInNames(entries, key, m);
    GainsInNames(entries, order, key, m);
    hide Base, CombineAll, AllGains, OrderMatters, Names, Alone;
  }

  lemma {:induction false} NeverOvertaken(entries: seq<Entry>)
    requires forall i, j, a :: 0 <= i < |entries| && 0 <= j < |entries| && a in entries[i].aliases ==>
               var combined := entries[i].canonical + " (" + a + ")";
               combined != entries[j].canonical && combined !in entries[j].aliases
    ensures !OrderMatters(entries)
  {
    assert CombinedNamesAreNew(entries);
    if OrderMatters(entries) {
      var e, f, alias :| e in entries && f in entries && alias in f.aliases &&
        Adds(Base(entries), f, alias) && Overtakes(Base(entries), e, f, alias);
      hide Base, CombinedNamesAreNew;
      NewNamesOvertakeNobody(entries, Base(entries), e, f, alias);
    }
  }

  lemma {:induction false} GainsInNames(entries: seq<Entry>, order: seq<Entry>, key: string, m: int)
    requires forall e :: e in order <==> e in entries
    ensures m in AllGains(Base(entries), order, key) <==>
            exists e, a :: e in entries && e.mbid == m && a in e.aliases && key == e.canonical + " (" + a + ")" &&
                           Alone(entries, e.canonical, m) && Alone(entries, a, m)
  {
    var base := Base(entries);
    forall e: Entry, a
      ensures Combines(base, e, a, key) <==>
                a in e.aliases && key == e.canonical + " (" + a + ")" && Alone(entries, e.canonical, e.mbid) && Alone(entries, a, e.mbid)
    {
      BaseAlone(entries, e.canonical, e.mbid);
      BaseAlone(entries, a, e.mbid);
      hide Base, Alone;
    }
    hide Base, Alone, Combines;
    if m in AllGains(base, order, key) {
      var i :| 0 <= i < |order| && Gains(base, order[i], |order[i].aliases|, key) != {} && order[i].mbid == m;
      var j :| 0 <= j < |order[i].aliases| && Combines(base, order[i], order[i].aliases[j], key);
      assert order[i] in order;
    }
    if e, a :| e in entries && e.mbid == m && a in e.aliases && Combines(base, e, a, key) {
      var i :| 0 <= i < |order| && order[i] == e;
      var j :| 0 <= j < |e.aliases| && e.aliases[j] == a;
      assert Gains(base, order[i], |order[i].aliases|, key) != {};
    }
  }

  // ---------------------------------------------------------------------
  // Two artists for whom it does

  const PLAIN := Entry(1, "x", ["y"])
  const NESTED := Entry(2, "z", ["x (y)"])

  function NestedBase(): Owners {
    map["x" := {1}, "z" := {2}, "y" := {1}, "x (y)" := {2}]
  }

  lemma {:induction false} AddFresh(owners: Owners, key: string, mbid: int)
    requires key != "" && key !in owners
    ensures Add(owners, key, mbid) == owners[key := {mbid}]
  {
    assert Get(owners, key) + {mbid} == {mbid};
  }

  lemma {:induction false} AddOne(owners: Owners, key: string, mbid: int)
    ensures AddAll(owners, [key], mbid) == Add(owners, key, mbid)
  {
    var keys := [key];
    assert keys[..|keys| - 1] == [];
    assert AddAll(owners, keys[..|keys| - 1], mbid) == owners;
  }

  lemma {:induction false} OwnersOfTwo(first: Entry, second: Entry)
    ensures CanonicalOwners([first, second]) == Add(Add(map[], first.canonical, first.mbid), second.canonical, second.mbid)
    ensures AliasOwners([first, second]) == AddAll(AddAll(map[], first.aliases, first.mbid), second.aliases, second.mbid)
  {
    var one, both := [first], [first, second];
    assert one[..|one| - 1] == [] && both[..|both| - 1] == one;
    assert CanonicalOwners(one[..|one| - 1]) == map[] && AliasOwners(one[..|one| - 1]) == map[];
    assert CanonicalOwners(one) == Add(map[], first.canonical, first.mbid);
    assert AliasOwners(one) == AddAll(map[], first.aliases, first.mbid);
  }

  lemma {:induction false} BaseOfNested()
    ensures Base([PLAIN, NESTED]) == NestedBase()
  {
    OwnersOfTwo(PLAIN, NESTED);
    AddOne(map[], "y", 1);
    AddOne(map["y" := {1}], "x (y)", 2);
    hide CanonicalOwners, AliasOwners, AddAll;
    assert "x" != "z" && "y" != "x (y)" && "x" != "y" && "x" != "x (y)" && "z" != "y" && "z" != "x (y)";
    AddFresh(map[], "x", 1);
    AddFresh(map["x" := {1}], "z", 2);
    AddFresh(map[], "y", 1);
    AddFresh(map["y" := {1}], "x (y)", 2);
    assert CanonicalOwners([PLAIN, NESTED]) == map["x" := {1}, "z" := {2}];
    assert AliasOwners([PLAIN, NESTED]) == map["y" := {1}, "x (y)" := {2}];
  }

  lemma {:induction false} CombineOne(owners: Owners, e: Entry)
    requires |e.aliases| == 1 && Get(owners, e.canonical) == {e.mbid}
    ensures CombineEntry(owners, e) ==
            if Get(owners, e.aliases[0]) == {e.mbid} then Add(owners, Combined(e.canonical, e.aliases[0]), e.mbid) else owners
  {
    assert CombineAliases(owners, e, 0) == owners;
  }

  lemma {:induction false} CombineTwo(owners: Owners, first: Entry, second: Entry)
    ensures CombineAll(owners, [first, second]) == CombineEntry(CombineEntry(owners, first), second)
  {
    var order := [first, second];
    assert order[..1] == [first] && [first][..0] == [];
    assert CombineAll(owners, [first]) == CombineEntry(owners, first);
  }

  /** Two artists for which the order of the range decides: the combined name of the first is
      an alias of the second. Visiting the second first, "z (x (y))" points to it alone, so an
      untagged artist of that name can be merged into it; visiting it last, the name points
      to nobody. */
  lemma {:induction false} OrderCanMatter()
    ensures !CombinedNamesAreNew([PLAIN, NESTED])
    ensures Get(Evidence([PLAIN, NESTED], [NESTED, PLAIN]), "z (x (y))") == {2}
    ensures Get(Evidence([PLAIN, NESTED], [PLAIN, NESTED]), "z (x (y))") == {}
  {
    var both := [PLAIN, NESTED];
    assert Combined("x", "y") == "x (y)" && Combined("z", "x (y)") == "z (x (y))";
    assert "y" in both[0].aliases && "x (y)" in both[1].aliases;
    assert IsName(both, Combined(both[0].canonical, "y"));
    BaseOfNested();
    var base := NestedBase();
    hide Base, CombineAll, CombineEntry;
    CombineTwo(base, NESTED, PLAIN);
    CombineTwo(base, PLAIN, NESTED);
    CombineOne(base, NESTED);
    CombineOne(base, PLAIN);
    assert "z" != "x (y)" && "x" != "z (x (y))" && "y" != "z (x (y))" && "x (y)" != "z (x (y))";
    CombineOne(CombineEntry(base, PLAIN), NESTED);
    CombineOne(CombineEntry(base, NESTED), PLAIN);
  }

  // ---------------------------------------------------------------------
  // The loops

  /** musicBrainzArtistEvidenceTx; `order` is the order in which the last range visits. */
  method MusicBrainzArtistEvidence(entries: seq<Entry>, order: seq<Entry>) returns (owners: Owners)
    ensures owners == Evidence(entries, order)
  {
    var canonical: Owners, alias: Owners := map[], map[];
    var i := 0;
    while i < |entries|
      invariant 0 <= i <= |entries|
      invariant canonical == CanonicalOwners(entries[..i]) && alias == AliasOwners(entries[..i])
    {
      assert entries[..i + 1][..i] == entries[..i];
      canonical := Add(canonical, entries[i].canonical, entries[i].mbid);
      alias := AddAliases(alias, entries[i]);
      i := i + 1;
    }
    assert entries[..|entries|] == entries;
    owners := alias + canonical;
    var k := 0;
    while k < |order|
      invariant 0 <= k <= |order|
      invariant owners == CombineAll(Base(entries), order[..k])
    {
      assert order[..k + 1][..k] == order[..k];
      owners := CombineNames(owners, order[k]);
      k := k + 1;
    }
    assert order[..|order|] == order;
  }

  method AddAliases(alias: Owners, e: Entry) returns (r: Owners)
    ensures r == AddAll(alias, e.aliases, e.mbid)
  {
    r := alias;
    var j := 0;
    while j < |e.aliases|
      invariant 0 <= j <= |e.aliases|
      invariant r == AddAll(alias, e.aliases[..j], e.mbid)
    {
      assert e.aliases[..j + 1][..j] == e.aliases[..j];
      r := Add(r, e.aliases[j], e.mbid);
      j := j + 1;
    }
    assert e.aliases[..|e.aliases|] == e.aliases;
  }

  method CombineNames(owners: Owners, e: Entry) returns (r: Owners)
    ensures r == CombineEntry(owners, e)
  {
    r := owners;
    if Get(owners, e.canonical) != {e.mbid} {
      return;
    }
    var j := 0;
    while j < |e.aliases|
      invariant 0 <= j <= |e.aliases|
      invariant r == CombineAliases(owners, e, j)
    {
      if Get(r, e.aliases[j]) == {e.mbid} {
        r := Add(r, Combined(e.canonical, e.aliases[j]), e.mbid);
      }
      j := j + 1;
    }
  }
}
