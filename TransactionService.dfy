/**
 The transaction service's sliding-window cache: a map from transaction id to
 transaction holding the transactions of the last sixty seconds. A created
 transaction is admitted when its timestamp lies in the closed window
 [now - 60000, now] and its id is not yet cached (first write wins); a periodic
 sweep removes the entries strictly older than now - 60000; the statistics are
 a reduction over the cached amounts. The clock is the parameter `now`.
 */
module TransactionService {
  import opened Model
  import opened Aggregation
  import opened Repository

  const TransactionCacheSeconds := 60

  /** The window length in milliseconds. */
  const WindowMillis := TransactionCacheSeconds * 1000

  /**
   Admission test: the timestamp lies in [now - 60000, now], both ends included. It
   holds exactly for the timestamps that are neither in the future nor expired.
   */
  predicate Cacheable(t: Transaction, now: int)
    ensures Cacheable(t, now) <==> t.timestamp <= now && !Expired(t, now)
  {
    now - WindowMillis <= t.timestamp <= now
  }

  /** Eviction test: the timestamp is strictly before now - 60000. */
  predicate Expired(t: Transaction, now: int)
  {
    t.timestamp < now - WindowMillis
  }

  /** Once expired, a transaction stays expired as the clock moves on. */
  lemma ExpiredStaysExpired(t: Transaction, now: int, later: int)
    requires Expired(t, now) && now <= later
    ensures Expired(t, later)
  {
  }

  /** Every entry is stored under its own id. */
  ghost predicate KeyedById(m: map<int, Transaction>)
  {
    forall k :: k in m ==> m[k].id == k
  }

  // ---------------------------------------------------------------------------
  // Warm-up: the cache a fresh service starts from
  // ---------------------------------------------------------------------------

  /** Appending a row keeps ids distinct exactly when its id is new. */
  lemma DistinctIdsSnoc(init: seq<Transaction>, last: Transaction)
    ensures DistinctIds(init + [last]) <==> DistinctIds(init) && forall t :: t in init ==> t.id != last.id
  {
    var ts := init + [last];
    if DistinctIds(ts) {
      forall t | t in init ensures t.id != last.id {
        var i :| 0 <= i < |init| && init[i] == t;
        assert ts[i] == t && ts[|ts| - 1] == last;
      }
      forall i, j | 0 <= i < j < |init| ensures init[i].id != init[j].id {
        assert ts[i] == init[i] && ts[j] == init[j];
      }
    }
    if DistinctIds(init) && forall t :: t in init ==> t.id != last.id {
      forall i, j | 0 <= i < j < |ts| ensures ts[i].id != ts[j].id {
        if j == |ts| - 1 {
          assert ts[i] == init[i] && init[i] in init;
        } else {
          assert ts[i] == init[i] && ts[j] == init[j];
        }
      }
    }
  }

  /**
   Collecting a list into a map keyed by id. The collector refuses a second row
   with an id it has already seen, which is `None` here.
   */
  function ToConcurrentMap(ts: seq<Transaction>): (r: Option<map<int, Transaction>>)
    ensures r.Some? <==> DistinctIds(ts)
    ensures r.Some? ==> KeyedById(r.value) && |r.value| == |ts|
    ensures r.Some? ==> forall t :: t in ts ==> t.id in r.value && r.value[t.id] == t
    ensures r.Some? ==> forall k :: k in r.value ==> r.value[k] in ts
  {
    if ts == [] then Some(map[])
    else
      var init, last := ts[..|ts| - 1], ts[|ts| - 1];
      assert ts == init + [last];
      DistinctIdsSnoc(init, last);
      match ToConcurrentMap(init)
      case None => None
      case Some(m) =>
        if last.id in m then
          assert m[last.id] in init;
          None
        else
          assert forall t :: t in ts <==> t in init || t == last;
          Some(m[last.id := last])
  }

  /**
   The range query as the warm-up issues it: the current time is passed as the lower
   bound and the time a minute ago as the upper bound, so nothing is selected.
   */
  function WarmUpAsWritten(stored: seq<Transaction>, now: int): (r: seq<Transaction>)
    ensures r == []
  {
    var currentTimestamp := now;
    var minuteAgoTimestamp := now - WindowMillis;
    FindAllByTimestampBetween(stored, currentTimestamp, minuteAgoTimestamp)
  }

  /** The range query with the bounds in the declared order: exactly the cacheable rows. */
  function WarmUp(stored: seq<Transaction>, now: int): (r: seq<Transaction>)
    ensures forall t :: t in r <==> t in stored && Cacheable(t, now)
    ensures DistinctIds(stored) ==> DistinctIds(r)
  {
    var currentTimestamp := now;
    var minuteAgoTimestamp := now - WindowMillis;
    FindAllByTimestampBetween(stored, minuteAgoTimestamp, currentTimestamp)
  }

  /**
   Any stored row inside the window shows the difference: the query as written loses
   it, the query with the bounds in the declared order keeps it.
   */
  lemma WarmUpLosesCacheableRow(stored: seq<Transaction>, now: int, t: Transaction)
    requires t in stored && Cacheable(t, now)
    ensures t !in WarmUpAsWritten(stored, now)
    ensures t in WarmUp(stored, now)
  {
  }

  // ---------------------------------------------------------------------------
  // Admission
  // ---------------------------------------------------------------------------

  /**
   The cache after an admission attempt at time `now`: the transaction lands under
   its id when it is cacheable and the id is free; nothing else ever changes.
   */
  function Admit(m: map<int, Transaction>, t: Transaction, now: int): (r: map<int, Transaction>)
    ensures t.id in r <==> t.id in m || Cacheable(t, now)
    ensures t.id in r ==> r[t.id] == if t.id in m then m[t.id] else t
    ensures forall k :: k != t.id ==> (k in r <==> k in m)
    ensures forall k :: k != t.id && k in m ==> r[k] == m[k]
    ensures KeyedById(m) ==> KeyedById(r)
  {
    if Cacheable(t, now) && t.id !in m then m[t.id := t] else m
  }

  /** Out-of-window transactions, future ones included, leave the cache as it was. */
  lemma AdmitOutsideWindow(m: map<int, Transaction>, t: Transaction, now: int)
    requires t.timestamp < now - WindowMillis || t.timestamp > now
    ensures Admit(m, t, now) == m
  {
  }

  /** First write wins: an id already cached keeps its stored transaction. */
  lemma AdmitFirstWriteWins(m: map<int, Transaction>, t: Transaction, now: int)
    requires t.id in m
    ensures Admit(m, t, now) == m
  {
  }

  /** Admitting the same transaction twice is admitting it once. */
  lemma AdmitIdempotent(m: map<int, Transaction>, t: Transaction, now: int)
    ensures Admit(Admit(m, t, now), t, now) == Admit(m, t, now)
  {
  }

  /** The ids occurring in a list of transactions. */
  function Ids(ts: seq<Transaction>): set<int>
  {
    set t | t in ts :: t.id
  }

  /** The ids of the transactions of a list that are inside the window at `now`. */
  function CacheableIds(ts: seq<Transaction>, now: int): set<int>
  {
    set t | t in ts && Cacheable(t, now) :: t.id
  }

  /** Splitting the last transaction off a list splits its id off the in-window ids. */
  lemma CacheableIdsSnoc(init: seq<Transaction>, last: Transaction, now: int)
    ensures CacheableIds(init + [last], now)
      == CacheableIds(init, now) + (if Cacheable(last, now) then {last.id} else {})
  {
    var ts := init + [last];
    assert forall t :: t in ts <==> t in init || t == last;
  }

  /**
   A run of admission attempts, in order, all at time `now`. The keys afterwards are
   the old keys plus the ids of the run's in-window transactions. Entries already
   cached are never displaced, every new entry is an in-window transaction of the
   run, and entries stay keyed by their own ids.
   */
  function AdmitAll(m: map<int, Transaction>, ts: seq<Transaction>, now: int): (r: map<int, Transaction>)
    ensures r.Keys == m.Keys + CacheableIds(ts, now)
    ensures forall k :: k in m ==> k in r && r[k] == m[k]
    ensures forall k :: k in r && k !in m ==> r[k] in ts && Cacheable(r[k], now)
    ensures KeyedById(m) ==> KeyedById(r)
  {
    if ts == [] then m
    else
      var init, last := ts[..|ts| - 1], ts[|ts| - 1];
      assert ts == init + [last];
      CacheableIdsSnoc(init, last, now);
      Admit(AdmitAll(m, init, now), last, now)
  }

  /** Row `i` of a run is in the window and no earlier row with its id was. */
  ghost predicate FirstInWindow(ts: seq<Transaction>, i: int, now: int)
    requires 0 <= i < |ts|
  {
    Cacheable(ts[i], now) && forall j :: 0 <= j < i && ts[j].id == ts[i].id ==> !Cacheable(ts[j], now)
  }

  /** A row first in the window in a prefix of a run is first in the window in the run. */
  lemma FirstInWindowExtends(init: seq<Transaction>, last: Transaction, i: int, now: int)
    requires 0 <= i < |init| && FirstInWindow(init, i, now)
    ensures FirstInWindow(init + [last], i, now)
  {
    var ts := init + [last];
    assert forall j :: 0 <= j <= i ==> ts[j] == init[j];
  }

  /** An in-window last row whose id no earlier in-window row carries is first in the window. */
  lemma FirstInWindowLast(init: seq<Transaction>, last: Transaction, now: int)
    requires Cacheable(last, now) && last.id !in CacheableIds(init, now)
    ensures FirstInWindow(init + [last], |init|, now)
  {
    var ts := init + [last];
    forall j | 0 <= j < |init| && ts[j].id == last.id ensures !Cacheable(ts[j], now) {
      assert ts[j] == init[j] && init[j] in init;
    }
  }

  /**
   The first write wins across a run: every entry a run adds is a row of the run that
   was in the window when no earlier row with its id was.
   */
  lemma {:induction false} AdmitAllFirstWins(m: map<int, Transaction>, ts: seq<Transaction>, now: int)
    ensures var r := AdmitAll(m, ts, now);
      forall k :: k in r && k !in m ==> exists i :: 0 <= i < |ts| && ts[i] == r[k] && FirstInWindow(ts, i, now)
  {
    if ts != [] {
      var init, last := ts[..|ts| - 1], ts[|ts| - 1];
      assert ts == init + [last];
      var r0, r := AdmitAll(m, init, now), AdmitAll(m, ts, now);
      assert r == Admit(r0, last, now);
      AdmitAllFirstWins(m, init, now);
      forall k | k in r && k !in m
        ensures exists i :: 0 <= i < |ts| && ts[i] == r[k] && FirstInWindow(ts, i, now)
      {
        if k in r0 {
          var i :| 0 <= i < |init| && init[i] == r0[k] && FirstInWindow(init, i, now);
          FirstInWindowExtends(init, last, i, now);
          assert ts[i] == r[k];
        } else {
          FirstInWindowLast(init, last, now);
          assert ts[|init|] == r[k];
        }
      }
    }
  }

  /**
   When every transaction of the run is inside the window, the cache ends up holding
   its old ids plus the distinct ids of the run, so the count grows by the number of
   distinct new ids.
   */
  lemma AdmitAllKeys(m: map<int, Transaction>, ts: seq<Transaction>, now: int)
    requires forall i :: 0 <= i < |ts| ==> Cacheable(ts[i], now)
    ensures AdmitAll(m, ts, now).Keys == m.Keys + Ids(ts)
  {
    assert forall t :: t in ts ==> Cacheable(t, now);
    assert CacheableIds(ts, now) == Ids(ts);
  }

  /**
   Admitting a run of in-window transactions with distinct, new ids into an empty
   cache builds the same map as collecting the run by id.
   */
  lemma {:induction false} AdmitAllCollects(ts: seq<Transaction>, now: int)
    requires DistinctIds(ts)
    requires forall i :: 0 <= i < |ts| ==> Cacheable(ts[i], now)
    ensures ToConcurrentMap(ts) == Some(AdmitAll(map[], ts, now))
  {
    if ts != [] {
      var init, last := ts[..|ts| - 1], ts[|ts| - 1];
      assert DistinctIds(init);
      AdmitAllCollects(init, now);
    }
  }

  // ---------------------------------------------------------------------------
  // Eviction
  // ---------------------------------------------------------------------------

  /**
   The cache after a sweep at time `now`: an entry stays, unchanged, exactly when its
   timestamp is at or after now - 60000.
   */
  function Evict(m: map<int, Transaction>, now: int): (r: map<int, Transaction>)
    ensures forall k :: k in r <==> k in m && m[k].timestamp >= now - WindowMillis
    ensures forall k :: k in r ==> r[k] == m[k]
    ensures KeyedById(m) ==> KeyedById(r)
  {
    map k | k in m && !Expired(m[k], now) :: m[k]
  }

  /** A second sweep at the same time removes nothing more. */
  lemma EvictIdempotent(m: map<int, Transaction>, now: int)
    ensures Evict(Evict(m, now), now) == Evict(m, now)
  {
  }

  /** Two sweeps remove what one sweep at the later of the two times removes. */
  lemma EvictCompose(m: map<int, Transaction>, now1: int, now2: int)
    ensures Evict(Evict(m, now1), now2) == Evict(m, if now1 <= now2 then now2 else now1)
  {
  }

  /**
   The two boundaries: a transaction exactly 60000 ms old is admitted and survives a
   sweep at the same time; one 60001 ms old is refused and would be swept.
   */
  lemma WindowBoundaries(m: map<int, Transaction>, t: Transaction, now: int)
    requires t.id !in m
    ensures t.timestamp == now - WindowMillis ==>
      t.id in Admit(m, t, now) && t.id in Evict(Admit(m, t, now), now)
    ensures t.timestamp == now - WindowMillis - 1 ==>
      t.id !in Admit(m, t, now) && Expired(t, now)
  {
  }

  /**
   Eviction never undoes a fresh admission: a transaction admitted at `now` survives,
   unchanged, every sweep run no later than its own timestamp plus 60000 ms, and so in
   particular a sweep at `now` itself.
   */
  lemma AdmittedSurvivesSweep(m: map<int, Transaction>, t: Transaction, now: int, later: int)
    requires t.id !in m && Cacheable(t, now)
    requires later <= t.timestamp + WindowMillis
    ensures t.id in Evict(Admit(m, t, now), later)
    ensures Evict(Admit(m, t, now), later)[t.id] == t
  {
  }

  // ---------------------------------------------------------------------------
  // Statistics
  // ---------------------------------------------------------------------------

  /** The amounts of a list of transactions, in the same order. */
  function Amounts(ts: seq<Transaction>): (xs: seq<real>)
    ensures |xs| == |ts|
    ensures forall i :: 0 <= i < |ts| ==> xs[i] == ts[i].amount
  {
    seq(|ts|, i requires 0 <= i < |ts| => ts[i].amount)
  }

  /**
   `values` lists the cache's entries, each exactly once, in the order a traversal of
   the cache's values happens to visit them: collecting the listing by id gives back
   the cache. The order is unspecified; the statistics do not depend on it.
   */
  ghost predicate Lists(values: seq<Transaction>, cache: map<int, Transaction>)
  {
    ToConcurrentMap(values) == Some(cache)
  }

  /** Taking one row out of a list with distinct ids. */
  lemma RemoveAt(b: seq<Transaction>, i: nat)
    requires DistinctIds(b) && i < |b|
    ensures DistinctIds(b[..i] + b[i + 1..])
    ensures forall t :: t in b[..i] + b[i + 1..] <==> t in b && t != b[i]
    ensures Amounts(b[..i] + b[i + 1..]) == Amounts(b)[..i] + Amounts(b)[i + 1..]
  {
    var r := b[..i] + b[i + 1..];
    assert forall p :: 0 <= p < |r| ==> r[p] == if p < i then b[p] else b[p + 1];
    forall t ensures t in r <==> t in b && t != b[i] {
      if t in r {
        var p :| 0 <= p < |r| && r[p] == t;
        assert t.id != b[i].id by {
          if p < i {
            assert b[p] == t;
          } else {
            assert b[p + 1] == t;
          }
        }
      }
      if t in b && t != b[i] {
        var q :| 0 <= q < |b| && b[q] == t;
        if q < i {
          assert r[q] == t;
        } else {
          assert r[q - 1] == t;
        }
      }
    }
  }

  /**
   Two lists with distinct ids and the same members carry the same amounts, up to
   order.
   */
  lemma {:induction false} SameMembersSameAmounts(a: seq<Transaction>, b: seq<Transaction>)
    requires |a| == |b|
    requires DistinctIds(a) && DistinctIds(b)
    requires forall t :: t in a <==> t in b
    ensures multiset(Amounts(a)) == multiset(Amounts(b))
    decreases |a|
  {
    if a != [] {
      var n := |a| - 1;
      var x := a[n];
      assert x in b;
      var i :| 0 <= i < |b| && b[i] == x;
      var a', b' := a[..n], b[..i] + b[i + 1..];
      assert a[..n] + a[n + 1..] == a';
      RemoveAt(a, n);
      RemoveAt(b, i);
      forall t ensures t in a' <==> t in b' {
        assert t in a' <==> t in a && t != x;
        assert t in b' <==> t in b && t != x;
      }
      SameMembersSameAmounts(a', b');
      MultisetRemove(Amounts(a), n);
      MultisetRemove(Amounts(b), i);
    }
  }

  /** Some key of a nonempty cache. */
  lemma SomeKey(m: map<int, Transaction>) returns (k: int)
    requires m != map[]
    ensures k in m
  {
    if forall x :: x !in m {
      assert false;
    } else {
      var x :| x in m;
      k := x;
    }
  }

  /** Taking a key out and putting its entry back gives the same cache. */
  lemma RestoreKey(m: map<int, Transaction>, k: int)
    requires k in m
    ensures (m - {k})[k := m[k]] == m
  {
  }

  /**
   Every cache whose entries sit under their own ids has a listing, so the statistics
   are defined on every cache the service can hold.
   */
  lemma {:induction false} ListingExists(m: map<int, Transaction>)
    requires KeyedById(m)
    ensures exists values :: Lists(values, m)
    decreases |m|
  {
    if m == map[] {
      assert Lists([], m);
    } else {
      var k := SomeKey(m);
      var rest := m - {k};
      assert |rest| == |m| - 1;
      ListingExists(rest);
      var values :| Lists(values, rest);
      ListsSnoc(values, rest, m[k]);
      RestoreKey(m, k);
    }
  }

  /** Every row of a listing is the cache's entry under its id. */
  lemma ListedIsCached(values: seq<Transaction>, cache: map<int, Transaction>, i: int)
    requires Lists(values, cache) && 0 <= i < |values|
    ensures values[i].id in cache && cache[values[i].id] == values[i]
  {
    assert values[i] in values;
  }

  /** Every entry of the cache is a row of its listing. */
  lemma CachedIsListed(values: seq<Transaction>, cache: map<int, Transaction>, k: int)
    requires Lists(values, cache) && k in cache
    ensures exists i :: 0 <= i < |values| && values[i] == cache[k]
  {
    assert cache[k] in values;
  }

  /**
   The reduction of a listing's amounts, read against the cache: the listing is as long
   as the cache, and its extremes are amounts of cached entries bounding every one.
   */
  lemma ListedSummary(values: seq<Transaction>, cache: map<int, Transaction>)
    requires Lists(values, cache)
    ensures |values| == |cache|
    ensures var s := Summarize(Amounts(values));
      && (cache != map[] ==> exists k :: k in cache && cache[k].amount == s.min)
      && (cache != map[] ==> exists k :: k in cache && cache[k].amount == s.max)
      && (forall k :: k in cache ==> s.min <= cache[k].amount <= s.max)
  {
    var xs := Amounts(values);
    var s := Summarize(xs);
    if cache != map[] {
      assert values != [];
      var i :| 0 <= i < |xs| && xs[i] == s.min;
      ListedIsCached(values, cache, i);
      var j :| 0 <= j < |xs| && xs[j] == s.max;
      ListedIsCached(values, cache, j);
    }
    forall k | k in cache ensures s.min <= cache[k].amount <= s.max {
      CachedIsListed(values, cache, k);
    }
  }

  /**
   `getStatistics` over the cache, its values visited in the order `values`: the
   count of entries and the sum of their amounts; when there are any, the average is
   sum over count and the min and max are amounts of cached entries that bound every
   cached amount; all five are zero for an empty cache.
   */
  function StatisticsOf(cache: map<int, Transaction>, values: seq<Transaction>): (s: Statistics)
    requires Lists(values, cache)
    ensures s.count == |cache|
    ensures s.sum == Sum(Amounts(values))
    ensures cache == map[] ==> s == ZeroStatistics
    ensures cache != map[] ==> s.avg == s.sum / |cache| as real
    ensures cache != map[] ==> exists k :: k in cache && cache[k].amount == s.min
    ensures cache != map[] ==> exists k :: k in cache && cache[k].amount == s.max
    ensures forall k :: k in cache ==> s.min <= cache[k].amount <= s.max
  {
    ListedSummary(values, cache);
    Summarize(Amounts(values))
  }

  /** The statistics of a listed cache are the reduction of the listing's amounts. */
  lemma StatisticsSummarize(cache: map<int, Transaction>, values: seq<Transaction>)
    requires Lists(values, cache)
    ensures StatisticsOf(cache, values) == Summarize(Amounts(values))
  {
  }

  /** The statistics do not depend on the order in which the cache's values are visited. */
  lemma StatisticsOrderFree(cache: map<int, Transaction>, v1: seq<Transaction>, v2: seq<Transaction>)
    requires Lists(v1, cache) && Lists(v2, cache)
    ensures StatisticsOf(cache, v1) == StatisticsOf(cache, v2)
  {
    SameMembersSameAmounts(v1, v2);
    SummarizePermutation(Amounts(v1), Amounts(v2));
  }

  /** Appending a transaction with a new id to a listing lists the cache with it stored. */
  lemma ListsSnoc(values: seq<Transaction>, m: map<int, Transaction>, t: Transaction)
    requires Lists(values, m) && t.id !in m
    ensures Lists(values + [t], m[t.id := t])
  {
    var vs := values + [t];
    assert vs[..|vs| - 1] == values && vs[|vs| - 1] == t;
  }

  /** The rows of a listing that a sweep at `now` keeps, in the same order. */
  function Unexpired(values: seq<Transaction>, now: int): (r: seq<Transaction>)
    ensures forall t :: t in r <==> t in values && !Expired(t, now)
  {
    if values == [] then []
    else
      var init, last := values[..|values| - 1], values[|values| - 1];
      assert forall t :: t in values <==> t in init || t == last by {
        assert values == init + [last];
      }
      if Expired(last, now) then Unexpired(init, now) else Unexpired(init, now) + [last]
  }

  /** Sweeping a cache with one more entry: that entry stays exactly when it is not expired. */
  lemma EvictUpdate(m: map<int, Transaction>, t: Transaction, now: int)
    requires t.id !in m
    ensures Evict(m[t.id := t], now) == if Expired(t, now) then Evict(m, now) else Evict(m, now)[t.id := t]
  {
  }

  /** The unexpired rows of a listing list the swept cache. */
  lemma {:induction false} ListsEvict(values: seq<Transaction>, m: map<int, Transaction>, now: int)
    requires Lists(values, m)
    ensures Lists(Unexpired(values, now), Evict(m, now))
  {
    if values == [] {
      assert Evict(m, now) == map[];
    } else {
      var init, last := values[..|values| - 1], values[|values| - 1];
      assert values == init + [last];
      DistinctIdsSnoc(init, last);
      var m0 := ToConcurrentMap(init).value;
      assert m == m0[last.id := last];
      ListsEvict(init, m0, now);
      EvictUpdate(m0, last, now);
      if !Expired(last, now) {
        ListsSnoc(Unexpired(init, now), Evict(m0, now), last);
      }
    }
  }

  /** The amounts of a listing with one more row: the old amounts, then the row's. */
  lemma AmountsSnoc(values: seq<Transaction>, t: Transaction)
    ensures Amounts(values + [t]) == Amounts(values) + [t.amount]
  {
  }

  /**
   Admitting a new transaction appends it to the listing, adds one to the count and
   its amount to the sum, and moves the extremes to include it.
   */
  lemma StatisticsAdmit(m: map<int, Transaction>, values: seq<Transaction>, t: Transaction, now: int)
    requires Lists(values, m)
    requires t.id !in m && Cacheable(t, now)
    ensures Lists(values + [t], Admit(m, t, now))
    ensures var s, s' := StatisticsOf(m, values), StatisticsOf(Admit(m, t, now), values + [t]);
      && s'.count == s.count + 1
      && s'.sum == s.sum + t.amount
      && s'.min == (if m == map[] || t.amount < s.min then t.amount else s.min)
      && s'.max == (if m == map[] || t.amount > s.max then t.amount else s.max)
  {
    ListsSnoc(values, m, t);
    AmountsSnoc(values, t);
    SummarizeAppend(Amounts(values), t.amount);
    StatisticsSummarize(m, values);
    StatisticsSummarize(Admit(m, t, now), values + [t]);
  }

  /** Every amount in a listing of a cache whose entries all carry amount a is a. */
  lemma ListedAmountsUniform(m: map<int, Transaction>, values: seq<Transaction>, a: real)
    requires Lists(values, m)
    requires forall k :: k in m ==> m[k].amount == a
    ensures forall i :: 0 <= i < |values| ==> Amounts(values)[i] == a
  {
    forall i | 0 <= i < |values| ensures Amounts(values)[i] == a {
      assert values[i] in values;
      assert m[values[i].id] == values[i];
    }
  }

  /** A cache of n entries of the same amount a reports n·a, a, a, a and n. */
  lemma StatisticsUniform(m: map<int, Transaction>, values: seq<Transaction>, a: real, n: nat)
    requires Lists(values, m) && |m| == n && n > 0
    requires forall k :: k in m ==> m[k].amount == a
    ensures StatisticsOf(m, values) == Statistics(n as real * a, a, a, a, n)
  {
    ListedAmountsUniform(m, values, a);
    var xs := Amounts(values);
    SummarizeUniform(xs, a, n);
    assert StatisticsOf(m, values) == Summarize(xs);
  }

  /**
   n > 0 creations with distinct ids, all inside the window and all of amount a, in any
   serial order: the statistics are n·a, a, a, a and n; no admission is lost.
   */
  lemma DistinctCreatesAllCounted(ts: seq<Transaction>, now: int, a: real, n: nat)
    requires |ts| == n && n > 0 && DistinctIds(ts)
    requires forall i :: 0 <= i < |ts| ==> Cacheable(ts[i], now) && ts[i].amount == a
    ensures Lists(ts, AdmitAll(map[], ts, now))
    ensures StatisticsOf(AdmitAll(map[], ts, now), ts) == Statistics(n as real * a, a, a, a, n)
  {
    AdmitAllCollects(ts, now);
    var m := AdmitAll(map[], ts, now);
    assert forall k :: k in m ==> m[k].amount == a by {
      forall k | k in m ensures m[k].amount == a {
        var i :| 0 <= i < |ts| && ts[i] == m[k];
      }
    }
    StatisticsUniform(m, ts, a, n);
  }

  // ---------------------------------------------------------------------------
  // The service object
  // ---------------------------------------------------------------------------

  class TransactionServiceImpl {
    var cache: map<int, Transaction>

    /** The cache's entries in the order a traversal of the map visits them. */
    var values: seq<Transaction>

    /** Every entry is stored under its own id, and `values` lists the entries, each once. */
    ghost predicate Valid()
      reads this
    {
      KeyedById(cache) && Lists(values, cache)
    }

    /**
     Warm-up as written: the range query receives the current time as its lower bound
     and the time a minute ago as its upper bound, so the service starts with an empty
     cache whatever the store holds.
     */
    constructor (stored: seq<Transaction>, now: int)
      ensures Valid()
      ensures values == WarmUpAsWritten(stored, now) && Some(cache) == ToConcurrentMap(values)
      ensures cache == map[]
    {
      var transactions := WarmUpAsWritten(stored, now);
      values := transactions;
      cache := ToConcurrentMap(transactions).value;
    }

    /**
     Warm-up with the query's bounds in their declared order: the cache starts as the
     stored rows inside the window at `now`, collected by id.
     */
    constructor WithCorrectedWarmUp(stored: seq<Transaction>, now: int)
      requires DistinctIds(stored)
      ensures Valid()
      ensures values == WarmUp(stored, now) && Some(cache) == ToConcurrentMap(values)
      ensures forall t :: t in stored && Cacheable(t, now) ==> t.id in cache && cache[t.id] == t
      ensures forall k :: k in cache ==> cache[k] in stored && Cacheable(cache[k], now)
    {
      var transactions := WarmUp(stored, now);
      values := transactions;
      cache := ToConcurrentMap(transactions).value;
    }

    /** Persisting is left to the store; the transaction is returned whether or not it was cached. */
    method Create(transaction: Transaction, now: int) returns (r: Transaction)
      requires Valid()
      modifies this
      ensures Valid()
      ensures r == transaction
      ensures cache == Admit(old(cache), transaction, now)
      ensures values == if Cacheable(transaction, now) && transaction.id !in old(cache) then old(values) + [transaction] else old(values)
    {
      PutIfCacheable(transaction, now);
      r := transaction;
    }

    method PutIfCacheable(transaction: Transaction, now: int)
      requires Valid()
      modifies this
      ensures Valid()
      ensures cache == Admit(old(cache), transaction, now)
      ensures values == if Cacheable(transaction, now) && transaction.id !in old(cache) then old(values) + [transaction] else old(values)
    {
      var transactionTimestamp := transaction.timestamp;
      var currentTimestamp := now;
      var minuteAgoTimestamp := currentTimestamp - TransactionCacheSeconds * 1000;
      if transactionTimestamp >= minuteAgoTimestamp && transactionTimestamp <= currentTimestamp {
        if transaction.id !in cache {
          ListsSnoc(values, cache, transaction);
          cache := cache[transaction.id := transaction];
          values := values + [transaction];
        }
      }
    }

    /** The statistics of the cached transactions; all zero when the cache is empty. */
    method GetStatistics() returns (s: Statistics)
      requires Valid()
      ensures s == StatisticsOf(cache, values)
      ensures s.count == |cache|
      ensures cache == map[] ==> s == ZeroStatistics
      ensures forall k :: k in cache ==> s.min <= cache[k].amount <= s.max
    {
      s := StatisticsOf(cache, values);
    }

    /** One sweep at time `now`: every entry strictly older than the window's start goes. */
    method EvictCache(now: int)
      requires Valid()
      modifies this
      ensures Valid()
      ensures cache == Evict(old(cache), now)
      ensures values == Unexpired(old(values), now)
    {
      var minuteAgoTimestamp := now - TransactionCacheSeconds * 1000;
      var kept := map k | k in cache && !(cache[k].timestamp < minuteAgoTimestamp) :: cache[k];
      assert kept == Evict(cache, now);
      ListsEvict(values, cache, now);
      cache, values := kept, Unexpired(values, now);
    }
  }
}
