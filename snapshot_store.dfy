/** The in-memory snapshot store: per aggregate, a short list of snapshots in which
    each version occurs once; each save replaces the snapshot of the same version
    and then trims the list to the highest versions. */
module SnapshotStores {
  import opened Wrappers
  import opened Errors
  import opened Text
  import opened Sorting
  import opened Sequences
  import opened Snapshots

  /** `DEFAULT_KEEP_COUNT`: the snapshots kept per aggregate after a save. */
  const DefaultKeepCount: int := 3

  function Version<D>(s: Snapshot<D>): int {
    s.version
  }

  /** The key of the reversed comparator: highest version first. */
  function NegatedVersion<D>(s: Snapshot<D>): int {
    -s.version
  }

  /** The test `removeIf` drops: the version being saved. */
  function OtherVersion<D(!new)>(version: int): Snapshot<D> -> bool {
    (s: Snapshot<D>) => s.version != version
  }

  /** The test `getSnapshotAtOrBefore` filters with. */
  function AtOrBefore<D(!new)>(version: int): Snapshot<D> -> bool {
    (s: Snapshot<D>) => s.version <= version
  }

  /** No two snapshots of the list have the same version. */
  ghost predicate UniqueVersions<D>(s: seq<Snapshot<D>>) {
    forall i, j :: 0 <= i < j < |s| ==> s[i].version != s[j].version
  }

  /** `Stream.max(Comparator.comparing(Snapshot::version))`: a snapshot of the
      highest version, the first one on a tie. */
  function MaxByVersion<D>(s: seq<Snapshot<D>>): (r: Snapshot<D>)
    requires s != []
    ensures r in s
    ensures forall x :: x in s ==> x.version <= r.version
  {
    if |s| == 1 then s[0]
    else
      var m := MaxByVersion(s[..|s| - 1]);
      assert s == s[..|s| - 1] + [s[|s| - 1]];
      if m.version >= s[|s| - 1].version then m else s[|s| - 1]
  }

  /** The list a save builds before trimming: the existing snapshots without the
      one of the same version, plus the new one, sorted by version (stably). */
  function Merged<D(!new)>(existing: seq<Snapshot<D>>, s: Snapshot<D>): (r: seq<Snapshot<D>>)
    ensures SortedBy(r, Version)
    ensures multiset(r) == multiset(Filter(existing, OtherVersion(s.version))) + multiset{s}
  {
    var kept := Filter(existing, OtherVersion(s.version));
    assert multiset(kept + [s]) == multiset(kept) + multiset{s};
    SortBy(kept + [s], Version)
  }

  /** The merge holds the new snapshot and exactly those stored snapshots whose
      version differs from it. */
  lemma MergedMembers<D(!new)>(existing: seq<Snapshot<D>>, s: Snapshot<D>)
    ensures s in Merged(existing, s)
    ensures forall x :: x in Merged(existing, s) <==> x == s || (x in existing && x.version != s.version)
    ensures |Merged(existing, s)| <= |existing| + 1
  {
    var r := Merged(existing, s);
    var kept := Filter(existing, OtherVersion(s.version));
    assert |multiset(r)| == |kept| + 1;
    forall x ensures x in r <==> x == s || (x in existing && x.version != s.version) {
      assert x in r <==> x in multiset(r);
      assert x in kept <==> x in multiset(kept);
    }
  }

  /** The list `cleanupOldSnapshots` leaves once the id and `keepCount` have passed
      their checks: unchanged when short enough, else the `keepCount` first after a
      stable sort by descending version. */
  function Trimmed<D>(s: seq<Snapshot<D>>, keepCount: int): (r: seq<Snapshot<D>>)
    requires keepCount > 0
    ensures |r| == if |s| <= keepCount then |s| else keepCount
    ensures multiset(r) <= multiset(s)
  {
    if |s| <= keepCount then s
    else
      var sorted := SortBy(s, NegatedVersion);
      assert sorted == sorted[..keepCount] + sorted[keepCount..];
      sorted[..keepCount]
  }

  /** Trimming keeps the highest versions: nothing it drops has a higher version
      than anything it keeps. */
  lemma TrimmedKeepsHighest<D>(s: seq<Snapshot<D>>, keepCount: int)
    requires keepCount > 0
    ensures forall x, y :: x in s && x !in Trimmed(s, keepCount) && y in Trimmed(s, keepCount) ==>
      x.version <= y.version
  {
    if |s| > keepCount {
      var sorted := SortBy(s, NegatedVersion);
      forall x, y | x in s && x !in Trimmed(s, keepCount) && y in Trimmed(s, keepCount)
        ensures x.version <= y.version
      {
        assert x in multiset(sorted);
        var j :| 0 <= j < |sorted| && sorted[j] == x;
        var i :| 0 <= i < keepCount && sorted[i] == y;
        assert NegatedVersion(sorted[i]) <= NegatedVersion(sorted[j]);
      }
    }
  }

  /** In a list with unique versions, different snapshots have different versions. */
  lemma ElementsDiffer<D>(s: seq<Snapshot<D>>)
    requires UniqueVersions(s)
    ensures forall x, y :: x in s && y in s && x != y ==> x.version != y.version
  {
    forall x, y | x in s && y in s && x != y ensures x.version != y.version {
      var a :| 0 <= a < |s| && s[a] == x;
      var b :| 0 <= b < |s| && s[b] == y;
      assert a != b;
    }
  }

  /** A list with unique versions holds each snapshot at most once. */
  lemma {:induction false} UniqueCountsOnce<D>(s: seq<Snapshot<D>>)
    requires UniqueVersions(s)
    ensures forall x :: multiset(s)[x] <= 1
  {
    if s != [] {
      var t := s[1..];
      assert UniqueVersions(t);
      UniqueCountsOnce(t);
      assert s == [s[0]] + t;
    }
  }

  /** An element at two positions is counted twice. */
  lemma TwoOccurrences<D>(r: seq<Snapshot<D>>, i: int, j: int)
    requires 0 <= i < j < |r| && r[i] == r[j]
    ensures multiset(r)[r[i]] >= 2
  {
    assert r == r[..i] + [r[i]] + r[i + 1..j] + [r[j]] + r[j + 1..];
  }

  /** No repeated snapshot and no two snapshots of one version: unique versions. */
  lemma UniqueFrom<D>(r: seq<Snapshot<D>>)
    requires forall x :: multiset(r)[x] <= 1
    requires forall x, y :: x in r && y in r && x != y ==> x.version != y.version
    ensures UniqueVersions(r)
  {
    forall i, j | 0 <= i < j < |r| ensures r[i].version != r[j].version {
      if r[i] == r[j] {
        TwoOccurrences(r, i, j);
        assert false;
      }
    }
  }

  /** Filtering a list whose elements occur at most once keeps that property. */
  lemma {:induction false} FilterCountsOnce<D(!new)>(s: seq<Snapshot<D>>, p: Snapshot<D> -> bool)
    requires forall x :: multiset(s)[x] <= 1
    ensures forall x :: multiset(Filter(s, p))[x] <= 1
  {
    if s != [] {
      var t := s[1..];
      assert s == [s[0]] + t;
      assert forall x :: multiset(t)[x] <= multiset(s)[x];
      FilterCountsOnce(t, p);
      assert multiset(s) == multiset{s[0]} + multiset(t);
      assert multiset(s)[s[0]] <= 1;
      assert multiset(t)[s[0]] == 0;
      if p(s[0]) {
        assert s[0] !in t;
        assert Filter(s, p) == [s[0]] + Filter(t, p);
      } else {
        assert Filter(s, p) == Filter(t, p);
      }
    }
  }

  /** Merging into a list with unique versions keeps them unique. */
  lemma MergedUnique<D(!new)>(existing: seq<Snapshot<D>>, s: Snapshot<D>)
    requires UniqueVersions(existing)
    ensures UniqueVersions(Merged(existing, s))
  {
    var kept := Filter(existing, OtherVersion(s.version));
    var r := Merged(existing, s);
    UniqueCountsOnce(existing);
    FilterCountsOnce(existing, OtherVersion(s.version));
    assert multiset(r) == multiset(kept) + multiset{s};
    assert s !in kept;
    MergedMembers(existing, s);
    ElementsDiffer(existing);
    UniqueFrom(r);
  }

  /** Trimming only drops snapshots, so unique versions stay unique. */
  lemma TrimmedUnique<D>(s: seq<Snapshot<D>>, keepCount: int)
    requires keepCount > 0 && UniqueVersions(s)
    ensures UniqueVersions(Trimmed(s, keepCount))
  {
    var r := Trimmed(s, keepCount);
    UniqueCountsOnce(s);
    ElementsDiffer(s);
    forall x | x in r ensures x in s {
      assert x in multiset(s);
    }
    UniqueFrom(r);
  }

  /** A list as the store keeps it for `id`: at most `DEFAULT_KEEP_COUNT` snapshots
      of that aggregate, with distinct, non-negative versions. */
  ghost predicate ValidList<D>(id: string, l: seq<Snapshot<D>>) {
    UniqueVersions(l) && |l| <= DefaultKeepCount
    && forall s | s in l :: s.aggregateId == id && s.version >= 0
  }

  ghost predicate ValidMap<D>(m: map<string, seq<Snapshot<D>>>) {
    forall id | id in m :: !IsBlank(id) && ValidList(id, m[id])
  }

  /** A save turns a valid list into a valid one. */
  lemma SaveKeepsValidList<D(!new)>(id: string, existing: seq<Snapshot<D>>, s: Snapshot<D>)
    requires ValidList(id, existing) && s.aggregateId == id && s.version >= 0
    ensures ValidList(id, Trimmed(Merged(existing, s), DefaultKeepCount))
  {
    var merged := Merged(existing, s);
    MergedMembers(existing, s);
    MergedUnique(existing, s);
    TrimmedUnique(merged, DefaultKeepCount);
    forall x | x in Trimmed(merged, DefaultKeepCount) ensures x.aggregateId == id && x.version >= 0 {
      assert x in multiset(merged);
    }
  }

  /** Replacing one id's list by a valid one keeps the map valid. */
  lemma UpdateKeepsValid<D>(m: map<string, seq<Snapshot<D>>>, id: string, l: seq<Snapshot<D>>,
                            m': map<string, seq<Snapshot<D>>>)
    requires ValidMap(m) && !IsBlank(id) && ValidList(id, l) && m' == m[id := l]
    ensures ValidMap(m')
  {
    forall k | k in m' ensures !IsBlank(k) && ValidList(k, m'[k]) {
      if k != id {
        assert m'[k] == m[k];
      }
    }
  }

  class InMemorySnapshotStore<D(!new)> {
    /** Snapshots per aggregate id. */
    var snapshots: map<string, seq<Snapshot<D>>>

    /** Keys are non-blank ids; each list holds at most `DEFAULT_KEEP_COUNT`
        snapshots of its own aggregate, with distinct versions. */
    ghost predicate Valid()
      reads this
    {
      ValidMap(snapshots)
    }

    constructor ()
      ensures Valid() && snapshots == map[]
    {
      snapshots := map[];
    }

    /** `snapshotStore.get(id)`, with a missing entry read as an empty list. */
    function Existing(aggregateId: string): (r: seq<Snapshot<D>>)
      reads this
      ensures aggregateId !in snapshots ==> r == []
    {
      if aggregateId in snapshots then snapshots[aggregateId] else []
    }

    /** `saveSnapshot`: the id, the data and the version are checked in that order;
        then the snapshot of the same version is replaced or the new one added, and
        the list is trimmed to the `DEFAULT_KEEP_COUNT` highest versions. Other
        aggregates are untouched. */
    method SaveSnapshot(aggregateId: string, data: Option<D>, version: int, now: int)
      returns (r: Outcome<Error>)
      requires Valid()
      modifies this
      ensures Valid()
      ensures r.Fail? <==> IsBlank(aggregateId) || data.None? || version < 0
      ensures IsBlank(aggregateId) ==> r == Fail(IllegalArgument(BlankAggregateId))
      ensures !IsBlank(aggregateId) && data.None? ==> r == Fail(IllegalArgument(MissingData))
      ensures !IsBlank(aggregateId) && data.Some? && version < 0 ==> r == Fail(IllegalArgument(NegativeVersion))
      ensures r.Fail? ==> snapshots == old(snapshots)
      ensures r.Pass? ==>
        snapshots == old(snapshots)[aggregateId :=
          Trimmed(Merged(old(Existing(aggregateId)), Snapshot(aggregateId, data.value, version, now)),
                  DefaultKeepCount)]
    {
      if IsBlank(aggregateId) {
        return Fail(IllegalArgument(BlankAggregateId));
      }
      if data.None? {
        return Fail(IllegalArgument(MissingData));
      }
      if version < 0 {
        return Fail(IllegalArgument(NegativeVersion));
      }
      var created := Of(aggregateId, data, version, now);
      var newSnapshot := created.value;
      var merged := Merged(Existing(aggregateId), newSnapshot);
      ghost var existing := Existing(aggregateId);
      ReplaceAndTrim(aggregateId, merged);
      SaveKeepsValidList(aggregateId, existing, newSnapshot);
      UpdateKeepsValid(old(snapshots), aggregateId, snapshots[aggregateId], snapshots);
      return Pass;
    }

    /** The end of the `compute` call, which stores the merged list, and the cleanup
        after it. */
    method ReplaceAndTrim(aggregateId: string, merged: seq<Snapshot<D>>)
      requires !IsBlank(aggregateId)
      modifies this
      ensures snapshots == old(snapshots)[aggregateId := Trimmed(merged, DefaultKeepCount)]
    {
      ghost var before := snapshots;
      snapshots := snapshots[aggregateId := merged];
      CleanupOldSnapshots(aggregateId, DefaultKeepCount);
      assert snapshots == before[aggregateId := merged][aggregateId := Trimmed(merged, DefaultKeepCount)];
    }

    /** `cleanupOldSnapshots`: nothing happens for a blank id, a non-positive
        `keepCount`, an id without snapshots or a list no longer than `keepCount`;
        otherwise the list is trimmed to its `keepCount` highest versions. A store
        that keeps its invariant still keeps it afterwards; `saveSnapshot` also calls
        this on the merged list, which may hold one snapshot too many. */
    method CleanupOldSnapshots(aggregateId: string, keepCount: int)
      modifies this
      ensures IsBlank(aggregateId) || keepCount <= 0 || aggregateId !in old(snapshots) ==>
        snapshots == old(snapshots)
      ensures !IsBlank(aggregateId) && keepCount > 0 && aggregateId in old(snapshots) ==>
        snapshots == old(snapshots)[aggregateId := Trimmed(old(snapshots[aggregateId]), keepCount)]
      ensures old(Valid()) ==> Valid()
    {
      if IsBlank(aggregateId) || keepCount <= 0 {
        return;
      }
      if aggregateId !in snapshots {
        return;
      }
      var list := snapshots[aggregateId];
      if |list| <= keepCount {
        return;
      }
      var sorted := SortBy(list, NegatedVersion);
      ghost var before := snapshots;
      snapshots := snapshots[aggregateId := sorted[..keepCount]];
      if ValidMap(before) {
        var kept := snapshots[aggregateId];
        assert kept == Trimmed(list, keepCount);
        TrimmedUnique(list, keepCount);
        assert forall x | x in kept :: x in multiset(list);
        UpdateKeepsValid(before, aggregateId, kept, snapshots);
      }
    }

    /** `getSnapshot`: the latest snapshot, or none for a blank id or an aggregate
        without snapshots. */
    function GetSnapshot(aggregateId: string): (r: Option<Snapshot<D>>)
      reads this
      ensures r.None? <==> IsBlank(aggregateId) || Existing(aggregateId) == []
      ensures r.Some? ==> r.value in Existing(aggregateId)
                          && forall x :: x in Existing(aggregateId) ==> x.version <= r.value.version
    {
      if IsBlank(aggregateId) then None
      else
        var list := Existing(aggregateId);
        if list == [] then None else Some(MaxByVersion(list))
    }

    /** `getSnapshotAtOrBefore`: the latest snapshot whose version is at most
        `version`, or none when no snapshot is that old. */
    function GetSnapshotAtOrBefore(aggregateId: string, version: int): (r: Option<Snapshot<D>>)
      reads this
      ensures r.None? <==> IsBlank(aggregateId) || forall x :: x in Existing(aggregateId) ==> x.version > version
      ensures r.Some? ==> r.value in Existing(aggregateId) && r.value.version <= version
                          && forall x :: x in Existing(aggregateId) && x.version <= version ==>
                                           x.version <= r.value.version
    {
      if IsBlank(aggregateId) then None
      else
        var list := Existing(aggregateId);
        if list == [] then None
        else
          var older := Filter(list, AtOrBefore(version));
          if older == [] then
            assert forall x :: x in list ==> !AtOrBefore(version)(x);
            None
          else Some(MaxByVersion(older))
    }

    /** `clear`. */
    method Clear()
      modifies this
      ensures Valid() && snapshots == map[]
    {
      snapshots := map[];
    }

    /** `clearAggregate`: removes only the given id's list; a blank id does nothing. */
    method ClearAggregate(aggregateId: string)
      requires Valid()
      modifies this
      ensures Valid()
      ensures snapshots == if IsBlank(aggregateId) then old(snapshots) else old(snapshots) - {aggregateId}
    {
      if !IsBlank(aggregateId) {
        snapshots := snapshots - {aggregateId};
      }
    }

    /** `getAllSnapshots`: a copy of the id's list, empty for a blank or unknown id. */
    function GetAllSnapshots(aggregateId: string): (r: seq<Snapshot<D>>)
      reads this
      ensures IsBlank(aggregateId) ==> r == []
      ensures !IsBlank(aggregateId) ==> r == Existing(aggregateId)
    {
      if IsBlank(aggregateId) then [] else Existing(aggregateId)
    }
  }

  /** A save keeps the saved snapshot unless at least `DEFAULT_KEEP_COUNT` others
      have higher versions; every dropped snapshot is older than every kept one; and
      the list never has more than `DEFAULT_KEEP_COUNT` entries. */
  lemma SaveKeepsHighest<D(!new)>(existing: seq<Snapshot<D>>, s: Snapshot<D>)
    ensures var r := Trimmed(Merged(existing, s), DefaultKeepCount);
      |r| <= DefaultKeepCount
      && (forall x, y :: x in Merged(existing, s) && x !in r && y in r ==> x.version <= y.version)
      && (forall x :: x in r ==> x == s || (x in existing && x.version != s.version))
  {
    var m := Merged(existing, s);
    MergedMembers(existing, s);
    TrimmedKeepsHighest(m, DefaultKeepCount);
    forall x | x in Trimmed(m, DefaultKeepCount) ensures x in m {
      assert x in multiset(m);
    }
  }

  /** A version lower than three others already stored is discarded at once, and
      the three stay. */
  lemma LowVersionDiscarded<D(!new)>(existing: seq<Snapshot<D>>, s: Snapshot<D>)
    requires |existing| == DefaultKeepCount
    requires forall x :: x in existing ==> x.version > s.version
    ensures s !in Trimmed(Merged(existing, s), DefaultKeepCount)
    ensures multiset(Trimmed(Merged(existing, s), DefaultKeepCount)) == multiset(existing)
  {
    var m := Merged(existing, s);
    assert multiset(m) == multiset(existing) + multiset{s} && s !in existing by {
      MergedOfNewer(existing, s);
    }
    TrimOneTooMany(m, existing, s);
  }

  /** Trimming the three stored snapshots plus a strictly older one drops that one. */
  lemma TrimOneTooMany<D>(m: seq<Snapshot<D>>, existing: seq<Snapshot<D>>, s: Snapshot<D>)
    requires |existing| == DefaultKeepCount && s !in existing
    requires forall x :: x in existing ==> x.version > s.version
    requires multiset(m) == multiset(existing) + multiset{s}
    ensures s !in Trimmed(m, DefaultKeepCount)
    ensures multiset(Trimmed(m, DefaultKeepCount)) == multiset(existing)
  {
    assert |m| == DefaultKeepCount + 1 by {
      assert |multiset(m)| == |multiset(existing)| + 1;
    }
    forall x | x in m ensures x == s || x.version > s.version {
      assert x in multiset(m);
    }
    LowestSortsLast(m, s);
    var sorted := SortBy(m, NegatedVersion);
    LastDropped(sorted, existing, s);
    assert Trimmed(m, DefaultKeepCount) == sorted[..DefaultKeepCount];
  }

  /** Dropping the last of four elements, which occurs once, leaves the other three. */
  lemma LastDropped<D>(sorted: seq<Snapshot<D>>, existing: seq<Snapshot<D>>, s: Snapshot<D>)
    requires |sorted| == DefaultKeepCount + 1 && sorted[DefaultKeepCount] == s
    requires multiset(sorted) == multiset(existing) + multiset{s} && s !in existing
    ensures s !in sorted[..DefaultKeepCount]
    ensures multiset(sorted[..DefaultKeepCount]) == multiset(existing)
  {
    assert sorted == sorted[..DefaultKeepCount] + [s];
    assert multiset(sorted) == multiset(sorted[..DefaultKeepCount]) + multiset{s};
    forall x ensures multiset(sorted[..DefaultKeepCount])[x] == multiset(existing)[x] {
      assert multiset(sorted)[x] == multiset(sorted[..DefaultKeepCount])[x] + multiset{s}[x];
    }
    assert multiset(sorted[..DefaultKeepCount]) == multiset(existing);
    assert multiset(existing)[s] == 0;
  }

  /** When every stored version is above the new one, the merge adds exactly one
      snapshot, which occurs once. */
  lemma MergedOfNewer<D(!new)>(existing: seq<Snapshot<D>>, s: Snapshot<D>)
    requires forall x :: x in existing ==> x.version > s.version
    ensures multiset(Merged(existing, s)) == multiset(existing) + multiset{s}
    ensures s !in existing
  {
    FilterAgree(existing, OtherVersion(s.version), (x: Snapshot<D>) => true);
    FilterAllSnapshots(existing);
  }

  /** Sorted by descending version, a strictly lowest snapshot that occurs once comes
      last. */
  lemma LowestSortsLast<D>(m: seq<Snapshot<D>>, s: Snapshot<D>)
    requires |m| == DefaultKeepCount + 1 && multiset(m)[s] == 1
    requires forall x :: x in m ==> x == s || x.version > s.version
    ensures SortBy(m, NegatedVersion)[DefaultKeepCount] == s
    ensures multiset(SortBy(m, NegatedVersion))[s] == 1
  {
    var sorted := SortBy(m, NegatedVersion);
    assert sorted[DefaultKeepCount] in multiset(m);
  }

  lemma {:induction false} FilterAllSnapshots<D(!new)>(s: seq<Snapshot<D>>)
    ensures Filter(s, (x: Snapshot<D>) => true) == s
  {
    if s != [] {
      FilterAllSnapshots(s[1..]);
      assert s == [s[0]] + s[1..];
    }
  }

  /** A snapshot saved at version 10 reads back with version 10. */
  method SavedVersionReadsBack<D(!new)>(data: D, now: int) returns (latest: Option<Snapshot<D>>)
    ensures latest.Some? && latest.value.version == 10 && latest.value.data == data
  {
    var store := new InMemorySnapshotStore<D>();
    assert "account-1"[0] == 'a';
    var r := store.SaveSnapshot("account-1", Some(data), 10, now);
    latest := store.GetSnapshot("account-1");
    assert store.Existing("account-1") == [Snapshot("account-1", data, 10, now)];
  }
}
