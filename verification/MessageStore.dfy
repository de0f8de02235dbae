/** The consumer's SQLite table of received messages. */
module MessageStore {
  import opened Messages
  import opened IntSets
  import opened KafkaLog
  import opened Timestamps

  datatype StoredRow = StoredRow(msg: Message, receivedAt: string, checksumValid: bool)

  datatype Stats = Stats(totalCount: nat, countByProducer: map<string, nat>,
                         lastSequence: map<string, int>, checksumErrors: nat)

  /** _verify_checksum; sha256 is the digest function. */
  predicate VerifyChecksum(sha256: string -> string, data: string, declared: string) {
    declared == "" || sha256(data) == declared
  }

  // ---- queries ------------------------------------------------------------------

  /** The ids of the rows of one producer. */
  function RowsOf(rows: map<string, StoredRow>, producer: string): set<string> {
    set id | id in rows && rows[id].msg.producer == producer
  }

  function SequencesOf(rows: map<string, StoredRow>, producer: string): set<int> {
    set id | id in rows && rows[id].msg.producer == producer :: rows[id].msg.sequence
  }

  function Producers(rows: map<string, StoredRow>): set<string> {
    set id | id in rows :: rows[id].msg.producer
  }

  function BadChecksums(rows: map<string, StoredRow>): set<string> {
    set id | id in rows && !rows[id].checksumValid
  }

  ghost predicate HasSequence(rows: map<string, StoredRow>, producer: string, s: int) {
    exists id :: id in rows && rows[id].msg.producer == producer && rows[id].msg.sequence == s
  }

  /** The rows received before the cutoff, by text comparison. */
  function Expired(rows: map<string, StoredRow>, cutoff: string): set<string> {
    set id | id in rows && ByteLess(rows[id].receivedAt, cutoff)
  }

  ghost predicate Stamped(r: StoredRow, t: Utc) {
    Timestamps.Valid(t) && r.receivedAt == IsoFormat(t)
  }

  /** What the GROUP BY query returns: for each producer of the table how many rows it has and its
      greatest number; and how many rows have a wrong checksum. */
  ghost predicate IsStats(rows: map<string, StoredRow>, stats: Stats) {
    && stats.lastSequence.Keys == stats.countByProducer.Keys == (set id | id in rows :: rows[id].msg.producer)
    && (forall k :: k in stats.lastSequence ==>
         && (forall s :: HasSequence(rows, k, s) ==> s <= stats.lastSequence[k])
         && HasSequence(rows, k, stats.lastSequence[k])
         && stats.countByProducer[k] == |set id | id in rows && rows[id].msg.producer == k|)
    && stats.checksumErrors == |set id | id in rows && !rows[id].checksumValid|
  }

  lemma LastSequences(rows: map<string, StoredRow>)
    ensures forall k :: k in Producers(rows) ==> SequencesOf(rows, k) != {}
    ensures forall k, s :: HasSequence(rows, k, s) <==> s in SequencesOf(rows, k)
  {
    forall k | k in Producers(rows) ensures SequencesOf(rows, k) != {} {
      var id :| id in rows && rows[id].msg.producer == k;
      assert rows[id].msg.sequence in SequencesOf(rows, k);
    }
  }

  /** sum(r["cnt"] for r in producer_rows) */
  method SumOfCounts(rows: map<string, StoredRow>, producers: set<string>) returns (total: nat)
    ensures total == |set id | id in rows && rows[id].msg.producer in producers|
  {
    total := 0;
    var left := producers;
    ghost var counted: set<string> := {};
    while left != {}
      invariant left <= producers
      invariant counted == set id | id in rows && rows[id].msg.producer in producers - left
      invariant total == |counted|
      decreases left
    {
      var k :| k in left;
      left := left - {k};
      var here := RowsOf(rows, k);
      assert counted !! here;
      counted := counted + here;
      total := total + |here|;
    }
    assert counted == set id | id in rows && rows[id].msg.producer in producers;
  }

  /** Exactly the rows received before the cutoff instant are gone; the others are as they were. */
  ghost predicate Pruned(before: map<string, StoredRow>, after: map<string, StoredRow>, cutoff: Utc) {
    && (forall id :: id in after ==> id in before && after[id] == before[id])
    && (forall id, t :: id in before && Stamped(before[id], t) ==> (id !in after <==> Before(t, cutoff)))
  }

  class Store {
    const sha256: string -> string
    var rows: map<string, StoredRow>   // by id, the PRIMARY KEY

    ghost predicate Valid()
      reads this
    {
      forall id :: id in rows ==>
        && rows[id].msg.id == id
        && (rows[id].checksumValid <==> !(rows[id].msg.checksum != "" && rows[id].msg.checksum != sha256(rows[id].msg.data)))
        && exists t :: Stamped(rows[id], t)
    }

    constructor (sha256: string -> string)
      ensures Valid() && rows == map[] && this.sha256 == sha256
    {
      this.sha256 := sha256;
      rows := map[];
    }

    /** INSERT OR IGNORE: the first copy of a complete message makes its row; later copies, and an
        incomplete record, change nothing and are reported as duplicates. */
    method Save(r: Record, now: Utc) returns (inserted: bool)
      requires !r.Malformed?
      modifies this
      ensures old(Valid()) && Timestamps.Valid(now) ==> Valid()
      ensures inserted <==> r.Good? && r.msg.id !in old(rows)
      ensures !inserted ==> rows == old(rows)
      ensures inserted ==>
        && rows.Keys == old(rows).Keys + {r.msg.id} && (forall id :: id in old(rows) ==> rows[id] == old(rows)[id])
        && rows[r.msg.id].msg == r.msg && rows[r.msg.id].receivedAt == IsoFormat(now)
        && (rows[r.msg.id].checksumValid <==> !(r.msg.checksum != "" && r.msg.checksum != sha256(r.msg.data)))
    {
      inserted := r.Good? && r.msg.id !in rows;
      if inserted {
        var m := r.msg;
        var row := StoredRow(m, IsoFormat(now), VerifyChecksum(sha256, m.data, m.checksum));
        assert Timestamps.Valid(now) ==> Stamped(row, now);
        rows := rows[m.id := row];
      }
    }

    /** The gaps of a range: ascending, every number of the range without a row, and no other. */
    method GetMissingSequences(producer: string, from: int, to: int) returns (missing: seq<int>)
      ensures missing == Absent(SequencesOf(rows, producer), from, to)
      ensures Ascending(missing)
      ensures forall s :: s in missing <==> from <= s <= to && !HasSequence(rows, producer, s)
    {
      missing := Absent(SequencesOf(rows, producer), from, to);
    }

    /** Per-producer counts and maxima; the total is summed over the producers and is the table size. */
    method GetStats() returns (stats: Stats)
      ensures stats.totalCount == |rows|
      ensures IsStats(rows, stats)
    {
      var producers := Producers(rows);
      LastSequences(rows);
      var total := SumOfCounts(rows, producers);
      assert (set id | id in rows && rows[id].msg.producer in producers) == rows.Keys;
      stats := Stats(total, map k | k in producers :: |RowsOf(rows, k)|,
                     map k | k in producers :: MaxOf(SequencesOf(rows, k)),
                     |BadChecksums(rows)|);
    }

    /** Deletes exactly the rows received before the cutoff instant. */
    method CleanupOld(cutoff: Utc) returns (deleted: nat)
      requires Valid() && Timestamps.Valid(cutoff)
      modifies this
      ensures Valid()
      ensures Pruned(old(rows), rows, cutoff)
      ensures deleted == |old(rows)| - |rows|
    {
      var expired := Expired(rows, IsoFormat(cutoff));
      ExpiredGo(rows, cutoff);
      deleted := |expired|;
      rows := rows - expired;
    }
  }

  lemma ExpiredGo(rows: map<string, StoredRow>, cutoff: Utc)
    requires Timestamps.Valid(cutoff)
    ensures var expired := Expired(rows, IsoFormat(cutoff));
      Pruned(rows, rows - expired, cutoff) && |rows - expired| + |expired| == |rows|
  {
    var expired := Expired(rows, IsoFormat(cutoff));
    forall id, t | id in rows && Stamped(rows[id], t) ensures id in expired <==> Before(t, cutoff) {
      TextOrderIsTimeOrder(t, cutoff);
    }
    assert expired <= rows.Keys;
    assert (rows - expired).Keys == rows.Keys - expired;
  }
}
