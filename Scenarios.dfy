/**
 The statistics scenario of the service's own test suite, replayed on the service
 object: two transactions 59 s old, a sweep after a one-second pause, two fresh
 transactions, another pause and sweep, two more transactions 59 s old, and a last
 pause and sweep. Each creation happens at the instant its timestamp is taken;
 amounts are exact reals.
 */
module Scenarios {
  import opened Model
  import opened Aggregation
  import opened TransactionService

  /** Two amounts in ascending order: their sum, their mean, the larger and the smaller, and 2. */
  lemma SummarizePair(x: real, y: real)
    requires x <= y
    ensures Summarize([x, y]) == Statistics(x + y, (x + y) / 2.0, y, x, 2)
  {
    var xs := [x, y];
    assert xs[1..] == [y] && xs[1..][1..] == [];
    assert Sum(xs[1..][1..]) == 0.0;
    assert Sum(xs[1..]) == y;
    assert Sum(xs) == x + y;
    var s := Summarize(xs);
    assert s.min == x by {
      assert s.min <= xs[0];
    }
    assert s.max == y by {
      assert s.max >= xs[1];
    }
  }

  /** The reduction of the third snapshot's amounts, in the order they were created. */
  lemma ThirdBatchAmounts()
    ensures Summarize([500.0, 1000.0, 1.99, 2000.0]) == Statistics(3501.99, 875.4975, 2000.0, 1.99, 4)
  {
    var xs := [500.0, 1000.0, 1.99, 2000.0];
    assert xs[1..] == [1000.0, 1.99, 2000.0];
    assert xs[1..][1..] == [1.99, 2000.0];
    assert xs[1..][1..][1..] == [2000.0];
    assert Sum(xs) == 3501.99;
    var s := Summarize(xs);
    assert s.min == 1.99 by {
      assert s.min <= xs[2];
    }
    assert s.max == 2000.0 by {
      assert s.max >= xs[3];
    }
  }

  /**
   The first sweep empties the cache of the first batch exactly when strictly more
   than 1000 ms have passed since the batch was created; at 1000 ms or less both
   entries are still inside the window and survive.
   */
  lemma FirstBatchSweep(t0: int, later: int)
    ensures var m := AdmitAll(map[], [Transaction(1, 100.0, t0 - 59000), Transaction(2, 200.0, t0 - 59000)], t0);
      && (later > t0 + 1000 ==> Evict(m, later) == map[])
      && (later <= t0 + 1000 ==> Evict(m, later) == m)
  {
    var t1, t2 := Transaction(1, 100.0, t0 - 59000), Transaction(2, 200.0, t0 - 59000);
    assert [t1, t2][..1] == [t1];
    assert [t1][..0] == [];
    assert AdmitAll(map[], [t1], t0) == map[1 := t1];
    assert AdmitAll(map[], [t1, t2], t0) == map[1 := t1][2 := t2];
  }

  /** Two pairs, one after the other. */
  lemma JoinPairs(a: Transaction, b: Transaction, c: Transaction, d: Transaction)
    ensures [a, b] + [c, d] == [a, b, c, d]
  {
  }

  /** The reduction of the amounts cached after the third batch, in creation order. */
  lemma ThirdBatchStatistics(a: Transaction, b: Transaction, c: Transaction, d: Transaction)
    requires a.amount == 500.0 && b.amount == 1000.0 && c.amount == 1.99 && d.amount == 2000.0
    ensures Summarize(Amounts([a, b, c, d])) == Statistics(3501.99, 875.4975, 2000.0, 1.99, 4)
  {
    assert Amounts([a, b, c, d]) == [500.0, 1000.0, 1.99, 2000.0];
    ThirdBatchAmounts();
  }

  /** Appending two rows one at a time appends the pair. */
  lemma AppendPair(values: seq<Transaction>, a: Transaction, b: Transaction)
    ensures values + [a] + [b] == values + [a, b]
  {
  }

  /** Two creations in a row, both admitted: the listing grows by the pair, in order. */
  method CreatePair(service: TransactionServiceImpl, a: Transaction, b: Transaction, now: int)
    requires service.Valid()
    requires a.id != b.id && a.id !in service.cache && b.id !in service.cache
    requires Cacheable(a, now) && Cacheable(b, now)
    modifies service
    ensures service.Valid()
    ensures service.values == old(service.values) + [a, b]
    ensures service.cache == old(service.cache)[a.id := a][b.id := b]
  {
    ghost var values0, cache0 := service.values, service.cache;
    var _ := service.Create(a, now);
    assert service.values == values0 + [a] && service.cache == cache0[a.id := a];
    ghost var values1 := service.values;
    var _ := service.Create(b, now);
    assert service.values == values1 + [b] && service.cache == cache0[a.id := a][b.id := b];
    AppendPair(values0, a, b);
  }

  /** A sweep's effect on a listing of two: both go, or both stay. */
  lemma SweepPair(a: Transaction, b: Transaction, now: int)
    ensures Expired(a, now) && Expired(b, now) ==> Unexpired([a, b], now) == []
    ensures !Expired(a, now) && !Expired(b, now) ==> Unexpired([a, b], now) == [a, b]
  {
    assert [a, b][..1] == [a] && [a, b][1] == b;
    assert [a][..0] == [] && [a][0] == a;
    assert Unexpired([a], now) == if Expired(a, now) then [] else [a];
  }

  /** The reduction of the amounts of two transactions, the smaller amount first. */
  lemma PairStatistics(a: Transaction, b: Transaction)
    requires a.amount <= b.amount
    ensures Summarize(Amounts([a, b]))
      == Statistics(a.amount + b.amount, (a.amount + b.amount) / 2.0, b.amount, a.amount, 2)
  {
    assert Amounts([a, b]) == [a.amount, b.amount];
    SummarizePair(a.amount, b.amount);
  }

  /** A sweep of a listing of four that keeps the first two and drops the last two. */
  lemma SweepFour(a: Transaction, b: Transaction, c: Transaction, d: Transaction, now: int)
    requires !Expired(a, now) && !Expired(b, now) && Expired(c, now) && Expired(d, now)
    ensures Unexpired([a, b, c, d], now) == [a, b]
  {
    assert [a, b, c, d][..3] == [a, b, c];
    assert [a, b, c][..2] == [a, b];
    SweepPair(a, b, now);
  }

  /** Checkpoint one: ids 1 and 2 (100 and 200, 59 s old) are created into an empty cache. */
  method FirstCheckpoint(service: TransactionServiceImpl, t0: int) returns (s: Statistics)
    requires service.Valid() && service.values == []
    modifies service
    ensures service.Valid()
    ensures service.values == [Transaction(1, 100.0, t0 - 59000), Transaction(2, 200.0, t0 - 59000)]
    ensures s == Statistics(300.0, 150.0, 200.0, 100.0, 2)
  {
    var tx1, tx2 := Transaction(1, 100.0, t0 - 59000), Transaction(2, 200.0, t0 - 59000);
    CreatePair(service, tx1, tx2, t0);
    assert service.values == [tx1, tx2];
    StatisticsSummarize(service.cache, service.values);
    PairStatistics(tx1, tx2);
    s := service.GetStatistics();
  }

  /** Checkpoint two: the sweep after the pause empties the cache. */
  method SecondCheckpoint(service: TransactionServiceImpl, t0: int, e1: int) returns (s: Statistics)
    requires service.Valid()
    requires service.values == [Transaction(1, 100.0, t0 - 59000), Transaction(2, 200.0, t0 - 59000)]
    requires t0 + 1000 < e1
    modifies service
    ensures service.Valid() && service.values == []
    ensures s == ZeroStatistics
  {
    SweepPair(Transaction(1, 100.0, t0 - 59000), Transaction(2, 200.0, t0 - 59000), e1);
    service.EvictCache(e1);
    s := service.GetStatistics();
  }

  /** Checkpoint three: ids 3 and 4 (500 and 1000, fresh) are created into the empty cache. */
  method ThirdCheckpoint(service: TransactionServiceImpl, c2: int) returns (s: Statistics)
    requires service.Valid() && service.values == []
    modifies service
    ensures service.Valid()
    ensures service.values == [Transaction(3, 500.0, c2), Transaction(4, 1000.0, c2)]
    ensures s == Statistics(1500.0, 750.0, 1000.0, 500.0, 2)
  {
    var tx3, tx4 := Transaction(3, 500.0, c2), Transaction(4, 1000.0, c2);
    CreatePair(service, tx3, tx4, c2);
    assert service.values == [tx3, tx4];
    StatisticsSummarize(service.cache, service.values);
    PairStatistics(tx3, tx4);
    s := service.GetStatistics();
  }

  /**
   Checkpoint four: a sweep a second later keeps ids 3 and 4, then ids 5 and 6 (1.99
   and 2000, 59 s old) join them.
   */
  method FourthCheckpoint(service: TransactionServiceImpl, c2: int, e2: int, c3: int) returns (s: Statistics)
    requires service.Valid()
    requires service.values == [Transaction(3, 500.0, c2), Transaction(4, 1000.0, c2)]
    requires c2 + 1000 <= e2 <= c3 <= c2 + 59000
    modifies service
    ensures service.Valid()
    ensures service.values == [Transaction(3, 500.0, c2), Transaction(4, 1000.0, c2),
                               Transaction(5, 1.99, c3 - 59000), Transaction(6, 2000.0, c3 - 59000)]
    ensures s == Statistics(3501.99, 875.4975, 2000.0, 1.99, 4)
  {
    var tx3, tx4 := Transaction(3, 500.0, c2), Transaction(4, 1000.0, c2);
    var tx5, tx6 := Transaction(5, 1.99, c3 - 59000), Transaction(6, 2000.0, c3 - 59000);
    SweepPair(tx3, tx4, e2);
    service.EvictCache(e2);
    assert service.values == [tx3, tx4];
    CreatePair(service, tx5, tx6, c3);
    JoinPairs(tx3, tx4, tx5, tx6);
    assert service.values == [tx3, tx4, tx5, tx6];
    StatisticsSummarize(service.cache, service.values);
    ThirdBatchStatistics(tx3, tx4, tx5, tx6);
    s := service.GetStatistics();
  }

  /** Checkpoint five: the last sweep drops ids 5 and 6 and keeps ids 3 and 4. */
  method FifthCheckpoint(service: TransactionServiceImpl, c2: int, c3: int, e3: int) returns (s: Statistics)
    requires service.Valid()
    requires service.values == [Transaction(3, 500.0, c2), Transaction(4, 1000.0, c2),
                                Transaction(5, 1.99, c3 - 59000), Transaction(6, 2000.0, c3 - 59000)]
    requires c3 + 1000 < e3 <= c2 + 60000
    modifies service
    ensures service.Valid()
    ensures service.values == [Transaction(3, 500.0, c2), Transaction(4, 1000.0, c2)]
    ensures s == Statistics(1500.0, 750.0, 1000.0, 500.0, 2)
  {
    var tx3, tx4 := Transaction(3, 500.0, c2), Transaction(4, 1000.0, c2);
    SweepFour(tx3, tx4, Transaction(5, 1.99, c3 - 59000), Transaction(6, 2000.0, c3 - 59000), e3);
    service.EvictCache(e3);
    assert service.values == [tx3, tx4];
    StatisticsSummarize(service.cache, service.values);
    PairStatistics(tx3, tx4);
    s := service.GetStatistics();
  }

  /**
   The test's five statistics checkpoints, in order. The service starts from whatever
   the store holds (the test's store answers the warm-up query with nothing). The
   batches are created at `t0`, `c2` and `c3`. The sweeps run at `e1`, `e2` and `e3`,
   each at least one second after the batch before it. The first and third sweeps run
   strictly more than one second after it, which the test needs (see
   `FirstBatchSweep`). The last sweep runs within a minute of the second batch.
   */
  method StatisticsTestReplay(stored: seq<Transaction>, t0: int, e1: int, c2: int, e2: int, c3: int, e3: int)
    returns (s1: Statistics, s2: Statistics, s3: Statistics, s4: Statistics, s5: Statistics)
    requires t0 + 1000 < e1 <= c2
    requires c2 + 1000 <= e2 <= c3
    requires c3 + 1000 < e3 <= c2 + 60000
    ensures s1 == Statistics(300.0, 150.0, 200.0, 100.0, 2)
    ensures s2 == ZeroStatistics
    ensures s3 == Statistics(1500.0, 750.0, 1000.0, 500.0, 2)
    ensures s4 == Statistics(3501.99, 875.4975, 2000.0, 1.99, 4)
    ensures s5 == Statistics(1500.0, 750.0, 1000.0, 500.0, 2)
  {
    var service := new TransactionServiceImpl(stored, t0);
    assert service.values == [];
    s1 := FirstCheckpoint(service, t0);
    s2 := SecondCheckpoint(service, t0, e1);
    s3 := ThirdCheckpoint(service, c2);
    s4 := FourthCheckpoint(service, c2, e2, c3);
    s5 := FifthCheckpoint(service, c2, c3, e3);
  }
}
