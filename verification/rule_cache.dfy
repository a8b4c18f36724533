/** `matchRules`: an organisation's rules ordered by hierarchy level, read
    through a per-organisation cache whose entries live five minutes. The
    cache is an explicit map and the clock readings are parameters. */
module RuleCache {
  import opened InstitutionRules

  /** Five minutes, in milliseconds. */
  const CacheTtl: int := 5 * 60 * 1000

  datatype Entry = Entry(data: seq<StoredRule>, timestamp: int)

  type Cache = map<string, Entry>

  predicate SortedByLevel(s: seq<StoredRule>) {
    forall i, j :: 0 <= i < j < |s| ==> s[i].row.hierarchyLevel <= s[j].row.hierarchyLevel
  }

  /** The `WHERE org_id = orgId` part of the query, in table order. */
  function ForOrg(t: Table, orgId: string): (r: seq<StoredRule>)
    ensures forall x :: x in r ==> x.row.orgId == orgId
    ensures forall x :: multiset(r)[x] == if x.row.orgId == orgId then multiset(t)[x] else 0
    ensures |r| <= |t|
  {
    if |t| == 0 then []
    else
      var rest := ForOrg(t[1..], orgId);
      assert t == [t[0]] + t[1..];
      if t[0].row.orgId == orgId then [t[0]] + rest else rest
  }

  function InsertByLevel(x: StoredRule, s: seq<StoredRule>): (r: seq<StoredRule>)
    requires SortedByLevel(s)
    ensures SortedByLevel(r)
    ensures multiset(r) == multiset(s) + multiset{x}
  {
    if |s| == 0 then [x]
    else if x.row.hierarchyLevel <= s[0].row.hierarchyLevel then
      ConsSorted(x, s);
      [x] + s
    else
      var rest := InsertByLevel(x, s[1..]);
      assert s == [s[0]] + s[1..];
      forall k | 0 <= k < |rest|
        ensures s[0].row.hierarchyLevel <= rest[k].row.hierarchyLevel
      {
        var y := rest[k];
        assert y in multiset(rest);
        if y != x {
          assert y in multiset(s[1..]);
          var j :| 0 <= j < |s[1..]| && s[1..][j] == y;
          assert s[j + 1] == y;
        }
      }
      ConsSorted(s[0], rest);
      [s[0]] + rest
  }

  lemma ConsSorted(h: StoredRule, t: seq<StoredRule>)
    requires SortedByLevel(t)
    requires forall k :: 0 <= k < |t| ==> h.row.hierarchyLevel <= t[k].row.hierarchyLevel
    ensures SortedByLevel([h] + t)
  {
  }

  /** The `ORDER BY hierarchy_level` part: a stable insertion sort, one of
      the orders the database may return among equal levels. */
  function SortByLevel(s: seq<StoredRule>): (r: seq<StoredRule>)
    ensures SortedByLevel(r)
    ensures multiset(r) == multiset(s)
  {
    if |s| == 0 then []
    else
      assert s == [s[0]] + s[1..];
      InsertByLevel(s[0], SortByLevel(s[1..]))
  }

  /** The rules query: exactly the organisation's rows, ascending by level. */
  function QueryRules(t: Table, orgId: string): (r: seq<StoredRule>)
    ensures SortedByLevel(r)
    ensures forall x :: x in r ==> x.row.orgId == orgId
    ensures forall x :: x in t && x.row.orgId == orgId ==> multiset(r)[x] == multiset(t)[x]
  {
    var own := ForOrg(t, orgId);
    var r := SortByLevel(own);
    assert forall x :: x in r ==> x in own by {
      forall x | x in r ensures x in own {
        assert x in multiset(r);
      }
    }
    r
  }

  /** The entry for `orgId` exists and is younger than the TTL at `now`. */
  predicate Fresh(cache: Cache, orgId: string, now: int) {
    orgId in cache && now - cache[orgId].timestamp < CacheTtl
  }

  datatype Lookup = Lookup(rules: seq<StoredRule>, cache: Cache, queried: bool)

  /** `matchRules(orgId, useCache)`: `now` is the clock reading before the
      lookup, `storedAt` the reading taken when the query has returned. */
  function MatchRules(cache: Cache, t: Table, orgId: string, useCache: bool, now: int, storedAt: int): (r: Lookup)
    ensures useCache && Fresh(cache, orgId, now) ==> r == Lookup(cache[orgId].data, cache, false)
    ensures !(useCache && Fresh(cache, orgId, now)) ==>
              && r.queried
              && r.rules == QueryRules(t, orgId)
              && r.cache == cache[orgId := Entry(r.rules, storedAt)]
    ensures forall o :: o != orgId ==> (o in r.cache <==> o in cache)
    ensures forall o :: o != orgId && o in cache ==> r.cache[o] == cache[o]
  {
    if useCache && Fresh(cache, orgId, now) then Lookup(cache[orgId].data, cache, false)
    else
      var rules := QueryRules(t, orgId);
      Lookup(rules, cache[orgId := Entry(rules, storedAt)], true)
  }

  /** Within the TTL a second call returns the same snapshot without a
      query, even if the table changed in between. */
  lemma SnapshotStableWithinTtl(cache: Cache, t1: Table, t2: Table, orgId: string,
                                useCache: bool, now1: int, storedAt: int, now2: int, storedAt2: int)
    requires now2 - storedAt < CacheTtl
    ensures var first := MatchRules(cache, t1, orgId, useCache, now1, storedAt);
            var second := MatchRules(first.cache, t2, orgId, true, now2, storedAt2);
            first.queried ==> !second.queried && second.rules == first.rules && second.cache == first.cache
  {
  }

  /** At exactly five minutes the entry has expired and the table is read
      again. */
  lemma ExpiredAtTtl(cache: Cache, t: Table, orgId: string, storedAt: int)
    requires orgId in cache && cache[orgId].timestamp == storedAt
    ensures MatchRules(cache, t, orgId, true, storedAt + CacheTtl, storedAt + CacheTtl).queried
    ensures MatchRules(cache, t, orgId, true, storedAt + CacheTtl - 1, storedAt + CacheTtl).rules == cache[orgId].data
  {
  }
}
