/** The arbiter's table of audit results. */
module AuditStore {
  import opened Messages
  import opened IntSets
  import opened Rates
  import opened Timestamps

  datatype Status = Fine | Warning | Critical

  datatype AuditResult = AuditResult(auditId: string, timestamp: string, producer: string, sentCount: nat,
                                     receivedCount: nat, missing: seq<int>, lossRate: real, status: Status)

  datatype Stats = Stats(totalAudits: nat, avgLossRate: real, worstProducer: Option<string>,
                         worstLossRate: real, producersTracked: nat)

  // ---- aggregates ---------------------------------------------------------------

  function Sum(rows: seq<AuditResult>): real {
    if rows == [] then 0.0 else rows[0].lossRate + Sum(rows[1..])
  }

  /** AVG(loss_rate), 0.0 when there is no row. */
  function Mean(rows: seq<AuditResult>): real {
    if rows == [] then 0.0 else Sum(rows) / |rows| as real
  }

  /** Sum is the sum: nothing for no row, a row's own rate for one, and additive. */
  lemma {:induction false} SumIsAdditive(a: seq<AuditResult>, b: seq<AuditResult>, r: AuditResult)
    ensures Sum([]) == 0.0 && Sum([r]) == r.lossRate && Sum(a + b) == Sum(a) + Sum(b)
  {
    assert [r][1..] == [];
    if a == [] {
      assert a + b == b;
    } else {
      SumIsAdditive(a[1..], b, r);
      assert (a + b)[1..] == a[1..] + b;
    }
  }

  /** Mean is the mean: so many rows of that rate would have the same sum. */
  lemma MeanIsAverage(rows: seq<AuditResult>)
    ensures Mean(rows) * |rows| as real == Sum(rows)
    ensures rows == [] ==> Mean(rows) == 0.0
  {
  }

  /** WHERE producer_id = p (or <> p) */
  function Select(rows: seq<AuditResult>, p: string, same: bool): (r: seq<AuditResult>)
    ensures |r| <= |rows|
    ensures forall x :: x in r <==> x in rows && ((x.producer == p) == same)
  {
    if rows == [] then []
    else if (rows[0].producer == p) == same then [rows[0]] + Select(rows[1..], p, same)
    else Select(rows[1..], p, same)
  }

  function ProducersOf(rows: seq<AuditResult>): set<string> {
    set r | r in rows :: r.producer
  }

  lemma {:induction false} SplitSum(rows: seq<AuditResult>, p: string)
    ensures Sum(rows) == Sum(Select(rows, p, true)) + Sum(Select(rows, p, false))
    ensures |rows| == |Select(rows, p, true)| + |Select(rows, p, false)|
  {
    if rows != [] { SplitSum(rows[1..], p); }
  }

  lemma {:induction false} SelectTwice(rows: seq<AuditResult>, p: string, q: string)
    requires p != q
    ensures Select(Select(rows, p, false), q, true) == Select(rows, q, true)
  {
    if rows != [] { SelectTwice(rows[1..], p, q); }
  }

  lemma MeanBoundsSum(rows: seq<AuditResult>, bound: real)
    requires Mean(rows) <= bound
    ensures Sum(rows) <= Scaled(bound, |rows|)
  {
    if rows != [] {
      RateTimesCount(Sum(rows), |rows|);
      ScaledMonotone(Mean(rows), bound, |rows|);
    }
  }

  ghost predicate MeansBounded(rows: seq<AuditResult>, bound: real) {
    forall p :: p in ProducersOf(rows) ==> Mean(Select(rows, p, true)) <= bound
  }

  lemma OthersBounded(rows: seq<AuditResult>, p: string, bound: real)
    requires MeansBounded(rows, bound) && rows != [] && p == rows[0].producer
    ensures MeansBounded(Select(rows, p, false), bound)
    ensures Mean(Select(rows, p, true)) <= bound
    ensures |Select(rows, p, true)| > 0
  {
    var others := Select(rows, p, false);
    assert rows[0] in Select(rows, p, true);
    forall q | q in ProducersOf(others) ensures Mean(Select(others, q, true)) <= bound {
      SelectTwice(rows, p, q);
      assert q in ProducersOf(rows);
    }
  }

  /** If no producer's mean exceeds the bound, the whole table stays within it. */
  lemma {:induction false} MeansBoundTotal(rows: seq<AuditResult>, bound: real)
    requires MeansBounded(rows, bound)
    ensures Sum(rows) <= Scaled(bound, |rows|)
    decreases |rows|
  {
    if rows != [] {
      var p := rows[0].producer;
      var mine, others := Select(rows, p, true), Select(rows, p, false);
      SplitSum(rows, p);
      OthersBounded(rows, p, bound);
      MeansBoundTotal(others, bound);
      MeanBoundsSum(mine, bound);
      ScaledSum(bound, |mine|, |others|);
    }
  }

  /** In any table the global mean is at most the worst producer's mean. */
  lemma GlobalMeanAtMostWorst(rows: seq<AuditResult>, worst: string)
    requires rows != []
    requires forall p :: p in ProducersOf(rows) ==> Mean(Select(rows, p, true)) <= Mean(Select(rows, worst, true))
    ensures Mean(rows) <= Mean(Select(rows, worst, true))
  {
    var bound := Mean(Select(rows, worst, true));
    MeansBoundTotal(rows, bound);
    RateAtMost(Sum(rows), |rows|, bound);
  }

  // ---- the newest audits ------------------------------------------------------------

  lemma {:induction false} ByteLessTransitive(a: string, b: string, c: string)
    requires ByteLess(a, b) && ByteLess(b, c)
    ensures ByteLess(a, c)
  {
    if a != "" && a[0] == b[0] == c[0] {
      ByteLessTransitive(a[1..], b[1..], c[1..]);
    }
  }

  /** The index of a row with a greatest timestamp. */
  function Latest(rows: seq<AuditResult>): (i: nat)
    requires rows != []
    ensures i < |rows|
  {
    if |rows| == 1 then 0
    else
      var i := Latest(rows[1..]) + 1;
      if ByteLess(rows[0].timestamp, rows[i].timestamp) then i else 0
  }

  lemma {:induction false} NothingLater(rows: seq<AuditResult>)
    requires rows != []
    ensures forall o :: o in rows ==> !ByteLess(rows[Latest(rows)].timestamp, o.timestamp)
  {
    Irreflexive(rows[0].timestamp);
    if |rows| > 1 {
      NothingLater(rows[1..]);
      var i := Latest(rows[1..]) + 1;
      forall o | o in rows ensures !ByteLess(rows[Latest(rows)].timestamp, o.timestamp) {
        LaterThanFirst(rows[0].timestamp, rows[i].timestamp, o.timestamp);
        assert o == rows[0] || o in rows[1..];
      }
    }
  }

  lemma LaterThanFirst(first: string, latest: string, other: string)
    ensures ByteLess(first, latest) && ByteLess(latest, first) ==> ByteLess(latest, latest)
    ensures !ByteLess(first, latest) && !ByteLess(latest, other) ==> !ByteLess(first, other)
  {
    if ByteLess(first, latest) && ByteLess(latest, first) {
      ByteLessTransitive(latest, first, latest);
    }
    if !ByteLess(first, latest) && ByteLess(first, other) {
      Compare(first, latest);
      if ByteLess(latest, first) {
        ByteLessTransitive(latest, first, other);
      }
    }
  }

  lemma {:induction false} Compare(a: string, b: string)
    ensures ByteLess(a, b) || ByteLess(b, a) || a == b
  {
    if a != "" && b != "" && a[0] == b[0] {
      Compare(a[1..], b[1..]);
      assert a == [a[0]] + a[1..] && b == [b[0]] + b[1..];
    }
  }

  function WithoutIndex(rows: seq<AuditResult>, i: nat): seq<AuditResult>
    requires i < |rows|
  {
    rows[..i] + rows[i + 1..]
  }

  /** Each row is in one of the two parts, as often as it is in the whole. */
  ghost predicate Parts(rows: seq<AuditResult>, a: seq<AuditResult>, b: seq<AuditResult>) {
    multiset(rows) == multiset(a) + multiset(b)
  }

  lemma OneOut(rows: seq<AuditResult>, i: nat)
    requires i < |rows|
    ensures |WithoutIndex(rows, i)| == |rows| - 1
    ensures Parts(rows, [rows[i]], WithoutIndex(rows, i))
  {
    assert rows == rows[..i] + [rows[i]] + rows[i + 1..];
  }

  lemma JoinParts(rows: seq<AuditResult>, first: seq<AuditResult>, others: seq<AuditResult>, picked: seq<AuditResult>, left: seq<AuditResult>)
    requires Parts(rows, first, others) && Parts(others, picked, left)
    ensures Parts(rows, first + picked, left)
  {
  }

  lemma PartsAreRows(rows: seq<AuditResult>, a: seq<AuditResult>, b: seq<AuditResult>)
    requires Parts(rows, a, b)
    ensures forall o :: o in b ==> o in rows
  {
    forall o | o in b ensures o in rows {
      assert multiset(b)[o] > 0;
      assert multiset(rows)[o] > 0;
    }
  }

  /** ORDER BY timestamp DESC LIMIT limit */
  function Newest(rows: seq<AuditResult>, limit: nat): seq<AuditResult>
    decreases limit
  {
    if rows == [] || limit == 0 then []
    else
      var i := Latest(rows);
      [rows[i]] + Newest(WithoutIndex(rows, i), limit - 1)
  }

  /** The rows that the query leaves out. */
  function Older(rows: seq<AuditResult>, limit: nat): seq<AuditResult>
    decreases limit
  {
    if rows == [] || limit == 0 then rows else Older(WithoutIndex(rows, Latest(rows)), limit - 1)
  }

  /** None of `left` is later than any of `picked`. */
  ghost predicate NoneLater(picked: seq<AuditResult>, left: seq<AuditResult>) {
    forall r, o :: r in picked && o in left ==> !ByteLess(r.timestamp, o.timestamp)
  }

  lemma {:induction false} NewestLength(rows: seq<AuditResult>, limit: nat)
    ensures |Newest(rows, limit)| == if |rows| <= limit then |rows| else limit
    decreases limit
  {
    if rows != [] && limit != 0 {
      OneOut(rows, Latest(rows));
      NewestLength(WithoutIndex(rows, Latest(rows)), limit - 1);
    }
  }

  lemma {:induction false} NewestSplit(rows: seq<AuditResult>, limit: nat)
    ensures Parts(rows, Newest(rows, limit), Older(rows, limit))
    decreases limit
  {
    if rows != [] && limit != 0 {
      var i := Latest(rows);
      var others := WithoutIndex(rows, i);
      NewestSplit(others, limit - 1);
      OneOut(rows, i);
      JoinParts(rows, [rows[i]], others, Newest(others, limit - 1), Older(others, limit - 1));
    } else {
      NothingPicked(rows);
    }
  }

  lemma NothingPicked(rows: seq<AuditResult>)
    ensures Parts(rows, [], rows)
  {
  }

  /** Each row of the table is either selected or left out, once, and as many are selected as asked for. */
  lemma NewestCounts(rows: seq<AuditResult>, limit: nat)
    ensures |Newest(rows, limit)| == if |rows| <= limit then |rows| else limit
    ensures Parts(rows, Newest(rows, limit), Older(rows, limit))
  {
    NewestLength(rows, limit);
    NewestSplit(rows, limit);
  }

  /** And no row that is left out is later than one that is selected. */
  lemma {:induction false} NewestAreLatest(rows: seq<AuditResult>, limit: nat)
    ensures NoneLater(Newest(rows, limit), Older(rows, limit))
    decreases limit
  {
    if rows != [] && limit != 0 {
      var i := Latest(rows);
      NewestAreLatest(WithoutIndex(rows, i), limit - 1);
      NothingLater(rows);
      NewestSplit(rows, limit);
      PartsAreRows(rows, Newest(rows, limit), Older(rows, limit));
    }
  }

  /** A selection keeps each row of the producer as often as the table has it, and no other. */
  lemma {:induction false} SelectKeeps(rows: seq<AuditResult>, p: string, r: AuditResult)
    ensures multiset(Select(rows, p, true))[r] == if r.producer == p then multiset(rows)[r] else 0
  {
    if rows != [] {
      SelectKeeps(rows[1..], p, r);
      assert rows == [rows[0]] + rows[1..];
    }
  }

  lemma NewestOfProducer(rows: seq<AuditResult>, p: string, limit: nat)
    ensures var newest, older := Newest(Select(rows, p, true), limit), Older(Select(rows, p, true), limit);
      && (forall r :: multiset(newest)[r] + multiset(older)[r] == if r.producer == p then multiset(rows)[r] else 0)
      && |newest| <= limit && (|newest| < limit ==> older == [])
      && NoneLater(newest, older)
  {
    var mine := Select(rows, p, true);
    NewestCounts(mine, limit);
    NewestAreLatest(mine, limit);
    SplitLength(mine, Newest(mine, limit), Older(mine, limit));
    forall r ensures multiset(Newest(mine, limit))[r] + multiset(Older(mine, limit))[r] == if r.producer == p then multiset(rows)[r] else 0 {
      SelectKeeps(rows, p, r);
    }
  }

  lemma SplitLength(rows: seq<AuditResult>, a: seq<AuditResult>, b: seq<AuditResult>)
    requires Parts(rows, a, b)
    ensures |rows| == |a| + |b|
  {
    assert |multiset(rows)| == |multiset(a)| + |multiset(b)|;
  }

  // ---- the store ------------------------------------------------------------------

  class Store {
    var rows: seq<AuditResult>   // in the order they were saved

    ghost predicate Valid()
      reads this
    {
      forall i, j :: 0 <= i < j < |rows| ==> rows[i].auditId != rows[j].auditId
    }

    constructor ()
      ensures Valid() && rows == []
    {
      rows := [];
    }

    /** INSERT OR IGNORE: saving the same result twice is the same as saving it once. */
    method SaveResult(r: AuditResult)
      requires Valid()
      modifies this
      ensures Valid()
      ensures rows == if exists o :: o in old(rows) && o.auditId == r.auditId then old(rows) else old(rows) + [r]
    {
      if !exists o :: o in rows && o.auditId == r.auditId {
        rows := rows + [r];
      }
    }

    method GetStats() returns (stats: Stats)
      ensures stats.totalAudits == |rows| && stats.avgLossRate == Mean(rows)
      ensures stats.producersTracked == |set r | r in rows :: r.producer|
      ensures stats.worstProducer.None? <==> rows == []
      ensures rows == [] ==> stats.worstLossRate == 0.0
      ensures stats.worstProducer.Some? ==> exists r :: r in rows && r.producer == stats.worstProducer.value
      ensures stats.worstProducer.Some? ==> stats.worstLossRate == Mean(Select(rows, stats.worstProducer.value, true))
      ensures forall r :: r in rows ==> Mean(Select(rows, r.producer, true)) <= stats.worstLossRate
      ensures stats.avgLossRate <= stats.worstLossRate
    {
      var worst: Option<string>, rate := None, 0.0;
      var left := ProducersOf(rows);
      if rows != [] { assert rows[0].producer in left; }
      while left != {}
        invariant left <= ProducersOf(rows)
        invariant worst.None? ==> left == ProducersOf(rows) && rate == 0.0
        invariant worst.Some? ==> worst.value in ProducersOf(rows) && rate == Mean(Select(rows, worst.value, true))
        invariant worst.Some? ==> forall p :: p in ProducersOf(rows) - left ==> Mean(Select(rows, p, true)) <= rate
        decreases left
      {
        var p :| p in left;
        left := left - {p};
        var mean := Mean(Select(rows, p, true));
        if worst.None? || mean > rate {
          worst, rate := Some(p), mean;
        }
      }
      if rows != [] {
        GlobalMeanAtMostWorst(rows, worst.value);
      }
      stats := Stats(|rows|, Mean(rows), worst, rate, |ProducersOf(rows)|);
    }

    /** The union of the missing lists of the `limit` audits of a producer with the latest timestamps, sorted.
        The producer's audits are split into the newest ones and the rest. */
    method GetRecentMissing(producer: string, limit: nat) returns (missing: seq<int>, ghost newest: seq<AuditResult>, ghost older: seq<AuditResult>)
      ensures forall i, j :: 0 <= i < j < |missing| ==> missing[i] < missing[j]
      ensures forall s :: s in missing <==> exists r :: r in newest && s in r.missing
      ensures forall r :: multiset(newest)[r] + multiset(older)[r] == if r.producer == producer then multiset(rows)[r] else 0
      ensures |newest| <= limit && (|newest| < limit ==> older == [])
      ensures forall r, o :: r in newest && o in older ==> !ByteLess(r.timestamp, o.timestamp)
    {
      var selected := Newest(Select(rows, producer, true), limit);
      var merged: set<int> := {};
      for i := 0 to |selected|
        invariant forall s :: s in merged <==> exists r :: r in selected[..i] && s in r.missing
      {
        assert selected[..i + 1] == selected[..i] + [selected[i]];
        merged := merged + (set s | s in selected[i].missing);
      }
      assert selected[..|selected|] == selected;
      missing := Sorted(merged);
      newest, older := selected, Older(Select(rows, producer, true), limit);
      NewestOfProducer(rows, producer, limit);
    }
  }
}
