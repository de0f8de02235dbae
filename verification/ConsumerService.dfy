/** The consumer's background statistics: what /api/status serves may be older than the table. */
module ConsumerService {
  import opened Messages
  import opened KafkaLog
  import opened MessageStore
  import opened ConsumeLoop
  import opened Timestamps
  import C = ConsumerSystem

  const CLEANUP_EVERY := 720

  /** What raises in a turn of the statistics loop: the query, or the cleanup's DELETE or its commit. */
  datatype Fault = NoFault | QueryFails | DeleteFails | CommitFails

  class Service {
    const store: Store
    var cached: Stats
    var cleanupCounter: nat

    ghost predicate Valid()
      reads this, store
    {
      store.Valid() && cleanupCounter < CLEANUP_EVERY
    }

    constructor (store: Store)
      requires store.Valid()
      ensures Valid() && this.store == store && cached == Stats(0, map[], map[], 0)
    {
      this.store, cached, cleanupCounter := store, Stats(0, map[], map[], 0), 0;
    }

    /** One turn of _stats_loop.  The cache describes the table as it was before the hourly cleanup
        of the same turn, so after a cleanup it may name rows that are gone.  A turn whose query
        raises keeps the old cache; one whose cleanup raises has refreshed it and starts the hour
        anew, whether or not the rows went. */
    method StatsTurn(fault: Fault, cutoff: Utc)
      requires Valid() && Timestamps.Valid(cutoff)
      modifies this, store
      ensures Valid()
      ensures fault.QueryFails? ==> cached == old(cached) && store.rows == old(store.rows) && cleanupCounter == old(cleanupCounter)
      ensures !fault.QueryFails? ==> cached.totalCount == |old(store.rows)| && IsStats(old(store.rows), cached)
      ensures !fault.QueryFails? ==> cleanupCounter == if old(cleanupCounter) + 1 < 720 then old(cleanupCounter) + 1 else 0
      ensures cleanupCounter != 0 || fault.DeleteFails? ==> store.rows == old(store.rows)
      ensures cleanupCounter == 0 && (fault.NoFault? || fault.CommitFails?) ==> Pruned(old(store.rows), store.rows, cutoff)
    {
      if fault.QueryFails? {
        return;
      }
      Refresh();
      CountTurn(fault, cutoff);
    }

    method CountTurn(fault: Fault, cutoff: Utc)
      requires Valid() && Timestamps.Valid(cutoff)
      modifies this`cleanupCounter, store
      ensures Valid() && cleanupCounter == if old(cleanupCounter) + 1 < 720 then old(cleanupCounter) + 1 else 0
      ensures cleanupCounter != 0 || fault.DeleteFails? ==> store.rows == old(store.rows)
      ensures cleanupCounter == 0 && !fault.DeleteFails? ==> Pruned(old(store.rows), store.rows, cutoff)
    {
      if cleanupCounter + 1 >= CLEANUP_EVERY {
        cleanupCounter := 0;
        if !fault.DeleteFails? {
          var deleted := store.CleanupOld(cutoff);
        }
      } else {
        cleanupCounter := cleanupCounter + 1;
      }
    }

    method Refresh()
      modifies this`cached
      ensures cached.totalCount == |store.rows| && IsStats(store.rows, cached)
    {
      cached := store.GetStats();
    }

    /** The watermark served for a producer, if any. */
    method Watermark(producer: string) returns (w: Option<int>)
      ensures w == if producer in cached.lastSequence then Some(cached.lastSequence[producer]) else None
    {
      w := if producer in cached.lastSequence then Some(cached.lastSequence[producer]) else None;
    }
  }

  /** What a turn caches is what the consumer's transition system serves: the refresh is a RefreshStats
      step on the same table. */
  lemma RefreshIsAStep(rows: map<string, StoredRow>, stats: Stats, s: C.Consumer, logs: Logs)
    requires IsStats(rows, stats) && s.store.rows == Table(rows)
    ensures C.IsLastSequence(s.store.rows, stats.lastSequence)
    ensures var s' := C.Step(s, logs, C.RefreshStats(stats.lastSequence));
      s'.Some? && s'.value.cached == stats.lastSequence && s'.value.store == s.store
  {
    CachedIsLast(rows, stats);
    RefreshSteps(s, logs, stats.lastSequence);
  }

  lemma RefreshSteps(s: C.Consumer, logs: Logs, last: map<string, int>)
    requires C.IsLastSequence(s.store.rows, last)
    ensures var s' := C.Step(s, logs, C.RefreshStats(last));
      s'.Some? && s'.value.cached == last && s'.value.store == s.store
  {
  }

  lemma CachedIsLast(rows: map<string, StoredRow>, stats: Stats)
    requires IsStats(rows, stats)
    ensures C.IsLastSequence(Table(rows), stats.lastSequence)
  {
    CachedRows(rows, stats);
    CachedBounds(rows, stats);
  }

  lemma CachedRows(rows: map<string, StoredRow>, stats: Stats)
    requires IsStats(rows, stats)
    ensures forall k :: k in stats.lastSequence ==> C.HasRow(Table(rows), k, stats.lastSequence[k])
  {
    forall k | k in stats.lastSequence ensures C.HasRow(Table(rows), k, stats.lastSequence[k]) {
      assert HasSequence(rows, k, stats.lastSequence[k]);
      var id :| id in rows && rows[id].msg.producer == k && rows[id].msg.sequence == stats.lastSequence[k];
      assert id in Table(rows);
    }
  }

  lemma CachedBounds(rows: map<string, StoredRow>, stats: Stats)
    requires IsStats(rows, stats)
    ensures forall id :: id in Table(rows) ==>
      Table(rows)[id].producer in stats.lastSequence && Table(rows)[id].sequence <= stats.lastSequence[Table(rows)[id].producer]
  {
    forall id | id in rows
      ensures rows[id].msg.producer in stats.lastSequence && rows[id].msg.sequence <= stats.lastSequence[rows[id].msg.producer]
    {
      assert rows[id].msg.producer in Producers(rows);
      assert HasSequence(rows, rows[id].msg.producer, rows[id].msg.sequence);
    }
  }

  /** So a cached watermark is the number of a record the consumer has read, and stays one, whatever the
      consumer does next, as long as the process lives. */
  lemma WatermarkStaysRead(rows: map<string, StoredRow>, stats: Stats, s: C.Consumer, logs: Logs, run: seq<C.Action>, producer: string)
    requires C.Inv(s, logs) && IsStats(rows, stats) && s.store.rows == Table(rows) && producer in stats.lastSequence
    requires Steps(s, logs, run).Some? && C.Crash !in run
    ensures C.ReadSequence(logs, Steps(s, logs, run).value.store.prefix, producer, stats.lastSequence[producer])
  {
    RefreshIsAStep(rows, stats, s, logs);
    C.RowServed(s.store, logs, producer, stats.lastSequence[producer]);
    PrefixGrows(s, logs, run);
    C.ReadGrows(logs, logs, s.store.prefix, Steps(s, logs, run).value.store.prefix);
  }

  lemma {:induction false} PrefixGrows(s: C.Consumer, logs: Logs, run: seq<C.Action>)
    requires C.Inv(s, logs) && Steps(s, logs, run).Some? && C.Crash !in run
    ensures C.Below(s.store.prefix, Steps(s, logs, run).value.store.prefix)
  {
    if run != [] {
      var shorter, a := run[..|run| - 1], run[|run| - 1];
      assert a in run;
      PrefixGrows(s, logs, shorter);
      StepsKeepInv(s, logs, shorter);
      StepGrows(Steps(s, logs, shorter).value, logs, a);
    }
  }

  lemma StepGrows(s: C.Consumer, logs: Logs, a: C.Action)
    requires C.Inv(s, logs) && C.Step(s, logs, a).Some? && !a.Crash?
    ensures C.Below(s.store.prefix, C.Step(s, logs, a).value.store.prefix)
  {
  }
}
