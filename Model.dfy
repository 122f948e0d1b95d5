/**
 The value types of the transaction service: a transaction as stored and cached,
 and the statistics record answered for the trailing window.
 */
module Model {

  /** Java `Long` ids and timestamps become unbounded integers; `Double` amounts become reals. */
  datatype Transaction = Transaction(id: int, amount: real, timestamp: int)

  /** The five aggregates, in the order the builder sets them. */
  datatype Statistics = Statistics(sum: real, avg: real, max: real, min: real, count: nat)

  /** What `getStatistics` answers over an empty cache: zero everywhere, never infinity. */
  const ZeroStatistics := Statistics(0.0, 0.0, 0.0, 0.0, 0)

  datatype Option<+T> = None | Some(value: T)
}
