/** The producer's SQLite table `messages` and the statements that MessageBuffer runs on it.
    Rows are kept in insertion order.  Clock readings strictly increase (Chronological), so
    insertion order is the order of `ORDER BY created_at ASC`. */
module BufferTable {
  import opened Messages

  datatype Row = Row(msg: Message, createdAt: real, sent: bool)

  /** Every row is strictly older than the rows after it, and no id occurs twice
      (PRIMARY KEY (message_id)). */
  predicate Chronological(rows: seq<Row>) {
    rows != [] ==>
    && (forall r :: r in rows[1..] ==> rows[0].createdAt < r.createdAt && rows[0].msg.id != r.msg.id)
    && Chronological(rows[1..])
  }

  predicate HasId(rows: seq<Row>, id: string) {
    exists r :: r in rows && r.msg.id == id
  }

  // ---- statements -------------------------------------------------------

  /** SELECT ... WHERE sent = 0 ORDER BY created_at ASC */
  function Pending(rows: seq<Row>): (p: seq<Row>)
    ensures |p| <= |rows|
    ensures forall r :: r in p <==> r in rows && !r.sent
  {
    if rows == [] then []
    else if rows[0].sent then Pending(rows[1..])
    else [rows[0]] + Pending(rows[1..])
  }

  /** DELETE the pending row with the least created_at, if there is one. */
  function DeleteOldestPending(rows: seq<Row>): (rows': seq<Row>)
    ensures Pending(rows) == [] ==> rows' == rows
    ensures Pending(rows) != [] ==> Pending(rows') == Pending(rows)[1..]
    ensures forall r :: r in rows' ==> r in rows
    ensures forall r :: r in rows ==> r in rows' || (Pending(rows) != [] && r == Pending(rows)[0])
  {
    if rows == [] then []
    else if !rows[0].sent then rows[1..]
    else [rows[0]] + DeleteOldestPending(rows[1..])
  }

  /** INSERT OR IGNORE ... VALUES (m.id, m, now, 0) */
  function InsertOrIgnore(rows: seq<Row>, m: Message, now: real): seq<Row> {
    if HasId(rows, m.id) then rows else rows + [Row(m, now, false)]
  }

  /** UPDATE ... SET sent = 1 WHERE message_id = id */
  function MarkSent(rows: seq<Row>, id: string): (rows': seq<Row>)
    ensures |rows'| == |rows|
    ensures forall i :: 0 <= i < |rows| ==>
      rows'[i] == if rows[i].msg.id == id then rows[i].(sent := true) else rows[i]
  {
    if rows == [] then [] else
      [if rows[0].msg.id == id then rows[0].(sent := true) else rows[0]] + MarkSent(rows[1..], id)
  }

  /** DELETE ... WHERE sent = 1 AND created_at < cutoff */
  function DeleteSentBefore(rows: seq<Row>, cutoff: real): (rows': seq<Row>)
    ensures |rows'| <= |rows|
    ensures forall r :: r in rows' <==> r in rows && !(r.sent && r.createdAt < cutoff)
  {
    if rows == [] then []
    else if rows[0].sent && rows[0].createdAt < cutoff then DeleteSentBefore(rows[1..], cutoff)
    else [rows[0]] + DeleteSentBefore(rows[1..], cutoff)
  }
}
