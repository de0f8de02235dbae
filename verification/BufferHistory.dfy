/** The buffer table together with what ever happened to it: which messages were inserted,
    which were marked sent while still in the table, and which rows were evicted.
    A transaction rollback takes the table and this record back together. */
module BufferHistory {
  import opened Messages
  import opened BufferTable

  datatype Db = Db(rows: seq<Row>, inserted: set<Message>, marked: set<Message>, evicted: set<Row>)

  const EMPTY := Db([], {}, {}, {})

  ghost function PendingMsgs(rows: seq<Row>): set<Message> {
    set r | r in rows && !r.sent :: r.msg
  }

  ghost function Msgs(rows: set<Row>): set<Message> {
    set r | r in rows :: r.msg
  }

  // ---- the statements, with their effect on the record --------------------

  ghost function EvictOldest(db: Db): Db {
    var p := Pending(db.rows);
    db.(rows := DeleteOldestPending(db.rows), evicted := db.evicted + if p == [] then {} else {p[0]})
  }

  ghost function Insert(db: Db, m: Message, now: real): Db {
    db.(rows := InsertOrIgnore(db.rows, m, now), inserted := db.inserted + {m})
  }

  ghost function Mark(db: Db, id: string): Db {
    db.(rows := MarkSent(db.rows, id),
        marked := db.marked + set r | r in db.rows && !r.sent && r.msg.id == id :: r.msg)
  }

  ghost function Clean(db: Db, cutoff: real): Db {
    db.(rows := DeleteSentBefore(db.rows, cutoff))
  }

  // ---- what every statement keeps -----------------------------------------

  /** Conservation and eviction discipline: every inserted message is pending, marked sent or
      evicted, and only one of these; whatever was evicted is older than everything pending. */
  ghost predicate Conserved(db: Db) {
    && db.inserted == PendingMsgs(db.rows) + db.marked + Msgs(db.evicted)
    && PendingMsgs(db.rows) !! db.marked !! Msgs(db.evicted)
    && (forall e, f :: e in db.evicted && f in db.evicted && e.msg == f.msg ==> e == f)
  }

  ghost predicate Ordered(db: Db, clock: real) {
    && Chronological(db.rows)
    && (forall r :: r in db.rows ==> r.createdAt <= clock)
    && (forall e :: e in db.evicted ==> e.createdAt <= clock && !e.sent)
    && (forall e, r :: e in db.evicted && r in db.rows && !r.sent ==> e.createdAt < r.createdAt)
  }

  ghost predicate Inv(db: Db, clock: real) {
    && Ordered(db, clock)
    && Conserved(db)
    && UniqueIds(db.inserted)
    && (forall r :: r in db.rows && r.sent ==> r.msg in db.marked)
  }

  lemma RowsAreInserted(db: Db, clock: real)
    requires Inv(db, clock)
    ensures forall r :: r in db.rows ==> r.msg in db.inserted
  {
    forall r | r in db.rows ensures r.msg in db.inserted {
      if !r.sent { assert r.msg in PendingMsgs(db.rows); }
    }
  }

  /** A deletion keeps order and distinctness: what is left is a sub-table. */
  lemma {:induction false} DeleteKeepsOrder(rows: seq<Row>)
    requires Chronological(rows)
    ensures Chronological(DeleteOldestPending(rows))
  {
    if rows != [] && rows[0].sent {
      DeleteKeepsOrder(rows[1..]);
    }
  }

  lemma {:induction false} CleanKeepsOrder(rows: seq<Row>, cutoff: real)
    requires Chronological(rows)
    ensures Chronological(DeleteSentBefore(rows, cutoff))
    ensures Pending(DeleteSentBefore(rows, cutoff)) == Pending(rows)
  {
    if rows != [] {
      CleanKeepsOrder(rows[1..], cutoff);
    }
  }

  /** The pending rows are in age order, so the evicted one is the oldest. */
  lemma {:induction false} PendingIsChronological(rows: seq<Row>)
    requires Chronological(rows)
    ensures Chronological(Pending(rows))
  {
    if rows != [] {
      PendingIsChronological(rows[1..]);
    }
  }

  lemma {:induction false} ChronologicalAppend(rows: seq<Row>, r: Row)
    requires Chronological(rows)
    requires forall o :: o in rows ==> o.createdAt < r.createdAt && o.msg.id != r.msg.id
    ensures Chronological(rows + [r])
  {
    if rows != [] {
      ChronologicalAppend(rows[1..], r);
      assert (rows + [r])[1..] == rows[1..] + [r];
    }
  }

  lemma {:induction false} MarkKeepsOrder(rows: seq<Row>, id: string)
    requires Chronological(rows)
    ensures Chronological(MarkSent(rows, id))
    ensures forall r :: r in MarkSent(rows, id) <==>
      (r in rows && r.msg.id != id) || (r.sent && r.msg.id == id && exists o :: o in rows && r == o.(sent := true))
  {
    if rows != [] {
      MarkKeepsOrder(rows[1..], id);
    }
  }

  lemma {:induction false} PendingAppend(rows: seq<Row>, r: Row)
    ensures Pending(rows + [r]) == if r.sent then Pending(rows) else Pending(rows) + [r]
  {
    if rows == [] {
      assert rows + [r] == [r] && [r][1..] == [];
    } else {
      var rest := rows[1..];
      PendingAppend(rest, r);
      var all := rows + [r];
      assert all[0] == rows[0] && all[1..] == rest + [r];
      assert [rows[0]] + (Pending(rest) + [r]) == [rows[0]] + Pending(rest) + [r];
    }
  }

  /** The rows of other messages, in the same order. */
  function Without(rows: seq<Row>, id: string): (r: seq<Row>)
    ensures forall x :: x in r <==> x in rows && x.msg.id != id
  {
    if rows == [] then []
    else (if rows[0].msg.id == id then [] else [rows[0]]) + Without(rows[1..], id)
  }

  /** Marking a message takes it off the queue, wherever it stands, and leaves the others in order. */
  lemma {:induction false} MarkRemoves(rows: seq<Row>, id: string)
    ensures Pending(MarkSent(rows, id)) == Without(Pending(rows), id)
  {
    if rows != [] {
      MarkRemoves(rows[1..], id);
      if !rows[0].sent {
        assert ([rows[0]] + Pending(rows[1..]))[1..] == Pending(rows[1..]);
      }
    }
  }

  /** Marking the oldest pending row takes it off the front of the queue. */
  lemma {:induction false} MarkShrinksPending(rows: seq<Row>, id: string)
    requires Chronological(rows)
    ensures |Pending(MarkSent(rows, id))| <= |Pending(rows)|
    ensures (exists r :: r in Pending(rows) && r.msg.id == id) ==> |Pending(MarkSent(rows, id))| == |Pending(rows)| - 1
    ensures Pending(rows) != [] && Pending(rows)[0].msg.id == id ==> Pending(MarkSent(rows, id)) == Pending(rows)[1..]
    ensures !(exists r :: r in Pending(rows) && r.msg.id == id) ==> Pending(MarkSent(rows, id)) == Pending(rows)
  {
    if rows != [] {
      MarkShrinksPending(rows[1..], id);
    }
  }

  lemma EvictKeepsInv(db: Db, clock: real)
    requires Inv(db, clock)
    ensures Inv(EvictOldest(db), clock)
  {
    var p := Pending(db.rows);
    if p != [] {
      var d := EvictOldest(db);
      DeleteKeepsOrder(db.rows);
      RowGone(db.rows);
      assert PendingMsgs(db.rows) == PendingMsgs(d.rows) + {p[0].msg};
      assert Msgs(d.evicted) == Msgs(db.evicted) + {p[0].msg};
    }
  }

  /** The evicted row is really gone, and no other row carries its message. */
  lemma RowGone(rows: seq<Row>)
    requires Chronological(rows) && Pending(rows) != []
    ensures forall r :: r in DeleteOldestPending(rows) ==> r.msg.id != Pending(rows)[0].msg.id
    ensures forall r :: r in DeleteOldestPending(rows) && !r.sent ==> Pending(rows)[0].createdAt < r.createdAt
  {
    if !rows[0].sent {
    } else {
      RowGone(rows[1..]);
    }
  }

  lemma InsertKeepsInv(db: Db, clock: real, m: Message, now: real)
    requires Inv(db, clock) && clock < now
    requires m !in db.inserted && UniqueIds(db.inserted + {m})
    ensures Inv(Insert(db, m, now), now)
    ensures Pending(Insert(db, m, now).rows) == Pending(db.rows) + [Row(m, now, false)]
  {
    RowsAreInserted(db, clock);
    assert !HasId(db.rows, m.id);
    var d := Insert(db, m, now);
    ChronologicalAppend(db.rows, Row(m, now, false));
    PendingAppend(db.rows, Row(m, now, false));
    assert PendingMsgs(d.rows) == PendingMsgs(db.rows) + {m};
  }

  lemma MarkKeepsInv(db: Db, clock: real, id: string)
    requires Inv(db, clock)
    ensures Inv(Mark(db, id), clock)
    ensures forall m :: m in Mark(db, id).marked ==> m in db.marked || (m in db.inserted && m.id == id)
    ensures forall m :: m in PendingMsgs(db.rows) && m.id == id ==> m in Mark(db, id).marked
  {
    RowsAreInserted(db, clock);
    var d := Mark(db, id);
    var hit := set r | r in db.rows && !r.sent && r.msg.id == id :: r.msg;
    MarkKeepsOrder(db.rows, id);
    assert PendingMsgs(db.rows) == PendingMsgs(d.rows) + hit;
    assert PendingMsgs(d.rows) !! hit;
  }

  lemma CleanKeepsInv(db: Db, clock: real, cutoff: real)
    requires Inv(db, clock)
    ensures Inv(Clean(db, cutoff), clock)
    ensures Pending(Clean(db, cutoff).rows) == Pending(db.rows)
  {
    CleanKeepsOrder(db.rows, cutoff);
    assert PendingMsgs(Clean(db, cutoff).rows) == PendingMsgs(db.rows);
  }

  /** Conservation by counting: accepted = pending + marked sent + evicted. */
  lemma Counted(db: Db, clock: real)
    requires Inv(db, clock)
    ensures |db.inserted| == |Pending(db.rows)| + |db.marked| + |db.evicted|
  {
    PendingCount(db.rows);
    EvictedCount(db.evicted);
  }

  lemma {:induction false} PendingCount(rows: seq<Row>)
    requires Chronological(rows)
    ensures |PendingMsgs(rows)| == |Pending(rows)|
  {
    if rows == [] {
      assert PendingMsgs(rows) == {};
    } else {
      PendingCount(rows[1..]);
      assert PendingMsgs(rows) == PendingMsgs(rows[1..]) + if rows[0].sent then {} else {rows[0].msg};
      assert rows[0].msg !in PendingMsgs(rows[1..]);
    }
  }

  lemma {:induction false} EvictedCount(rows: set<Row>)
    requires forall e, f :: e in rows && f in rows && e.msg == f.msg ==> e == f
    ensures |Msgs(rows)| == |rows|
  {
    if rows == {} {
      assert Msgs(rows) == {};
    } else {
      var e :| e in rows;
      EvictedCount(rows - {e});
      assert Msgs(rows) == Msgs(rows - {e}) + {e.msg};
    }
  }
}
