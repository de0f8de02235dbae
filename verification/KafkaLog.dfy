/** The topic: one append-only log per partition. */
module KafkaLog {
  import opened Messages

  /** What the consumer can make of a record.  A complete message can have a row.  One with a null where
      the table has a NOT NULL column (sequence, producer id, timestamp, frequency or payload data) is
      handled without an exception, but OR IGNORE skips its INSERT in silence; `checksumOk` is what its
      payload gives.  Handling any other record raises (no "id", no "sequence", ...). */
  datatype Record = Good(msg: Message) | Incomplete(checksumOk: bool) | Malformed

  type Logs = seq<seq<Record>>

  ghost predicate At(logs: Logs, p: nat, i: nat, m: Message) {
    p < |logs| && i < |logs[p]| && logs[p][i] == Good(m)
  }

  ghost predicate Logged(logs: Logs, m: Message) {
    exists p: nat, i: nat :: At(logs, p, i, m)
  }

  function Append(logs: Logs, p: nat, r: Record): Logs
    requires p < |logs|
  {
    logs[p := logs[p] + [r]]
  }

  /** A log is never rewritten: appending keeps every record where it was. */
  lemma AppendKeeps(logs: Logs, p: nat, r: Record)
    requires p < |logs|
    ensures forall q: nat, i: nat, m :: At(logs, q, i, m) ==> At(Append(logs, p, r), q, i, m)
    ensures forall m :: Logged(logs, m) ==> Logged(Append(logs, p, r), m)
    ensures forall q: nat, i: nat, m :: At(Append(logs, p, r), q, i, m) ==>
      At(logs, q, i, m) || (r == Good(m) && q == p && i == |logs[p]|)
    ensures r.Good? ==> Logged(Append(logs, p, r), r.msg)
  {
    var logs' := Append(logs, p, r);
    forall m | Logged(logs, m) ensures Logged(logs', m) {
      var q: nat, i: nat :| At(logs, q, i, m);
      assert At(logs', q, i, m);
    }
    if r.Good? {
      assert At(logs', p, |logs[p]|, r.msg);
    }
  }
}
