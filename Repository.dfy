/**
 The one query the service asks of the persistent store: the transactions whose
 timestamp lies between two bounds. The store itself is a sequence of rows; the
 derived "Between" query keeps the rows whose timestamp lies in the
 closed range from its first argument to its second.
 */
module Repository {
  import opened Model

  /** Stored rows have pairwise distinct ids (the id is the primary key). */
  ghost predicate DistinctIds(ts: seq<Transaction>)
  {
    forall i, j :: 0 <= i < j < |ts| ==> ts[i].id != ts[j].id
  }

  /** The rows after the first keep their ids distinct, and none reuses the first row's id. */
  lemma DistinctIdsTail(ts: seq<Transaction>)
    requires DistinctIds(ts) && ts != []
    ensures DistinctIds(ts[1..])
    ensures forall t :: t in ts[1..] ==> t.id != ts[0].id
  {
    forall t | t in ts[1..] ensures t.id != ts[0].id {
      var j :| 0 <= j < |ts[1..]| && ts[1..][j] == t;
      assert ts[j + 1] == t;
    }
  }

  /** A row in front of rows with distinct ids, none of them its own. */
  lemma DistinctIdsCons(t: Transaction, rest: seq<Transaction>)
    requires DistinctIds(rest)
    requires forall u :: u in rest ==> u.id != t.id
    ensures DistinctIds([t] + rest)
  {
    var ts := [t] + rest;
    forall i, j | 0 <= i < j < |ts| ensures ts[i].id != ts[j].id {
      assert ts[j] == rest[j - 1];
      if i > 0 {
        assert ts[i] == rest[i - 1];
      }
    }
  }

  /**
   `findAllByTimestampBetween(from, to)`: the rows with `from <= timestamp <= to`;
   the selection keeps distinct ids distinct.
   */
  function FindAllByTimestampBetween(stored: seq<Transaction>, from: int, to: int): (r: seq<Transaction>)
    ensures forall t :: t in r <==> t in stored && from <= t.timestamp <= to
    ensures |r| <= |stored|
    ensures to < from ==> r == []
    ensures DistinctIds(stored) ==> DistinctIds(r)
  {
    if stored == [] then []
    else
      var rest := FindAllByTimestampBetween(stored[1..], from, to);
      assert forall t :: t in stored <==> t == stored[0] || t in stored[1..];
      if from <= stored[0].timestamp <= to then
        assert DistinctIds(stored) ==> DistinctIds([stored[0]] + rest) by {
          if DistinctIds(stored) {
            DistinctIdsTail(stored);
            DistinctIdsCons(stored[0], rest);
          }
        }
        [stored[0]] + rest
      else rest
  }
}
