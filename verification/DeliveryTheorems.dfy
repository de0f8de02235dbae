/** What the pipeline promises in every reachable world. */
module DeliveryTheorems {
  import opened Messages
  import opened BufferTable
  import opened BufferHistory
  import opened KafkaLog
  import opened Delivery
  import P = ProducerSystem
  import C = ConsumerSystem

  // ---- producer ------------------------------------------------------------------

  ghost predicate Safe(m: Message, db: Db, logs: Logs) {
    m in PendingMsgs(db.rows) || m in Msgs(db.evicted) || Logged(logs, m)
  }

  /** No message loss: a message whose add succeeded is still pending, or is in the log, or was
      evicted by a full buffer; this holds for the live table and for what a crash would leave.
      Rows marked sent are in the log. */
  lemma NoLoss(w: World)
    requires Reachable(w)
    ensures forall m :: m in w.prod.acked ==> Safe(m, w.prod.db, w.logs) && Safe(m, w.prod.durable, w.logs)
    ensures forall r :: r in w.prod.db.rows && r.sent ==> Logged(w.logs, r.msg)
    ensures forall r :: r in w.prod.durable.rows && r.sent ==> Logged(w.logs, r.msg)
  {
    ReachableInv(w);
  }

  /** Accepted = pending + marked sent + evicted, as counts, and every evicted row is older than
      every pending one. */
  lemma Conservation(w: World)
    requires Reachable(w)
    ensures var d := w.prod.db; |d.inserted| == |Pending(d.rows)| + |d.marked| + |d.evicted|
    ensures var d := w.prod.durable; |d.inserted| == |Pending(d.rows)| + |d.marked| + |d.evicted|
    ensures forall e, r :: e in w.prod.db.evicted && r in Pending(w.prod.db.rows) ==> e.createdAt < r.createdAt
  {
    ReachableInv(w);
    Counted(w.prod.db, w.prod.clock);
    Counted(w.prod.durable, w.prod.clock);
  }

  /** A row leaves the table only as the evicted row, as a sent row that is in the log, or because
      a crash rolled back its uncommitted insert. */
  lemma RowsLeaveSafely(w: World, a: Action, r: Row)
    requires Reachable(w) && Step(w, a).Some?
    requires r in w.prod.db.rows && !HasId(Step(w, a).value.prod.db.rows, r.msg.id)
    ensures || r in Step(w, a).value.prod.db.evicted
            || (r.sent && Logged(w.logs, r.msg))
            || (a == Produce(P.Crash) && !HasId(w.prod.durable.rows, r.msg.id))
  {
    ReachableInv(w);
    var db, db' := w.prod.db, Step(w, a).value.prod.db;
    assert db'.rows == db.rows ==> HasId(db'.rows, r.msg.id);
    if a.Produce? && a.p.Resume? {
      StatementRemoves(w.prod, w.logs, a.p.t, a.p.wake, r);
    }
  }

  /** Neither INSERT nor UPDATE removes an id. */
  lemma UpdatesKeepIds(rows: seq<Row>, r: Row)
    requires r in rows
    ensures forall m, now :: HasId(InsertOrIgnore(rows, m, now), r.msg.id)
    ensures forall id :: HasId(MarkSent(rows, id), r.msg.id)
  {
    forall m, now ensures HasId(InsertOrIgnore(rows, m, now), r.msg.id) {
      assert r in InsertOrIgnore(rows, m, now);
    }
    forall id ensures HasId(MarkSent(rows, id), r.msg.id) {
      var i :| 0 <= i < |rows| && rows[i] == r;
      assert MarkSent(rows, id)[i] in MarkSent(rows, id);
    }
  }

  lemma EvictionRemoves(db: Db, r: Row)
    requires r in db.rows && !HasId(EvictOldest(db).rows, r.msg.id)
    ensures r in EvictOldest(db).evicted
  {
    assert r !in EvictOldest(db).rows;
  }

  lemma CleaningRemoves(db: Db, cutoff: real, r: Row)
    requires r in db.rows && !HasId(Clean(db, cutoff).rows, r.msg.id)
    ensures r.sent
  {
    assert r !in Clean(db, cutoff).rows;
  }

  lemma SentIsLogged(s: P.Producer, logs: Logs, r: Row)
    requires P.Inv(s, logs) && r in s.db.rows && r.sent
    ensures Logged(logs, r.msg)
  {
    assert P.DbInv(s.db, s, logs);
  }

  lemma StatementRemoves(s: P.Producer, logs: Logs, t: nat, wake: P.Wake, r: Row)
    requires P.Inv(s, logs) && t in s.tasks && P.Woken(s, logs, t, s.tasks[t], wake).Some?
    requires var rows' := P.Woken(s, logs, t, s.tasks[t], wake).value.db.rows; rows' != s.db.rows && !HasId(rows', r.msg.id)
    requires r in s.db.rows
    ensures r in P.Woken(s, logs, t, s.tasks[t], wake).value.db.evicted || (r.sent && Logged(logs, r.msg))
  {
    if wake.Failed? || !P.Changes(s.tasks[t]) {
      P.SameTable(s, logs, t, wake);
    } else {
      match s.tasks[t]
      case Evict(_) => EvictionRemoves(s.db, r);
      case CleanSent(cutoff) =>
        CleaningRemoves(s.db, cutoff, r);
        SentIsLogged(s, logs, r);
      case _ => UpdatesKeepIds(s.db.rows, r);
    }
  }

  /** The two connection flags agree, and whichever way reconnects, closes and failing sends
      interleave, every send in progress was started on an existing producer. */
  lemma SendsFindAProducer(w: World)
    requires Reachable(w)
    ensures w.prod.conn.connected == w.prod.conn.event
    ensures w.prod.conn.connected ==> w.prod.conn.handle.Some?
    ensures forall t :: t in w.prod.tasks && w.prod.tasks[t].Send? ==> w.prod.tasks[t].via.Some?
  {
    ReachableInv(w);
    forall t | t in w.prod.tasks && w.prod.tasks[t].Send? ensures w.prod.tasks[t].via.Some? {
      assert P.TaskInv(w.prod.tasks[t], w.prod, w.logs);
    }
  }

  // ---- consumer ------------------------------------------------------------------

  /** The ids of the complete records below `prefix`, over all partitions. */
  ghost function IdsBelow(logs: Logs, prefix: seq<nat>): set<string>
    requires C.Below(prefix, C.Lens(logs))
  {
    set p, i | 0 <= p < |logs| && 0 <= i < prefix[p] && logs[p][i].Good? :: logs[p][i].msg.id
  }

  /** The table has a row for the record, or had one before cleanup_old deleted it. */
  ghost predicate GotRow(st: C.Store, r: Record) {
    r.Good? && r.msg.id in st.rows.Keys + st.pruned
  }

  /** Below `upTo`, a record got no row if and only if it is incomplete. */
  ghost predicate OnlyIncompleteRowless(st: C.Store, logs: Logs, upTo: seq<nat>)
    requires C.Below(upTo, C.Lens(logs))
  {
    forall p, i :: 0 <= p < |logs| && 0 <= i < upTo[p] ==> (!GotRow(st, logs[p][i]) <==> logs[p][i].Incomplete?)
  }

  /** Commit safety.  The ids ever saved are exactly those of the complete records in a prefix of each
      partition log, and the committed offset never passes that prefix; a record whose handling raises
      is never passed; a record that was passed got no row if and only if it is incomplete.  This
      holds for the live table and for what a crash would leave. */
  lemma CommitSafety(w: World)
    requires Reachable(w)
    ensures C.Below(w.cons.offsets, w.cons.durable.prefix)
    ensures C.Below(w.cons.durable.prefix, C.Lens(w.logs)) && C.Below(w.cons.store.prefix, C.Lens(w.logs))
    ensures w.cons.durable.rows.Keys + w.cons.durable.pruned == IdsBelow(w.logs, w.cons.durable.prefix)
    ensures w.cons.store.rows.Keys + w.cons.store.pruned == IdsBelow(w.logs, w.cons.store.prefix)
    ensures OnlyIncompleteRowless(w.cons.durable, w.logs, w.cons.durable.prefix)
    ensures OnlyIncompleteRowless(w.cons.store, w.logs, w.cons.store.prefix)
    ensures forall p, i :: 0 <= p < |w.logs| && 0 <= i < |w.logs[p]| && w.logs[p][i].Malformed? ==>
      w.cons.offsets[p] <= w.cons.durable.prefix[p] <= i
  {
    ReachableInv(w);
    SavedIds(w.cons.durable, w.logs);
    SavedIds(w.cons.store, w.logs);
    RowlessBelow(w.cons.durable, w.logs, w.cons.durable.prefix);
    RowlessBelow(w.cons.store, w.logs, w.cons.store.prefix);
  }

  lemma RowlessBelow(st: C.Store, logs: Logs, upTo: seq<nat>)
    requires C.StoreInv(st, logs) && C.Below(upTo, st.prefix)
    ensures C.Below(upTo, C.Lens(logs)) && OnlyIncompleteRowless(st, logs, upTo)
  {
  }

  lemma SavedIds(st: C.Store, logs: Logs)
    requires C.StoreInv(st, logs)
    ensures st.rows.Keys + st.pruned == IdsBelow(logs, st.prefix)
  {
    forall id | C.ReadId(logs, st.prefix, id) ensures id in IdsBelow(logs, st.prefix) {
      var m: Message :| C.Read(logs, st.prefix, m) && m.id == id;
      var p: nat, i: nat :| At(logs, p, i, m) && p < |st.prefix| && i < st.prefix[p];
      assert logs[p][i].msg.id == id;
    }
    forall id | id in st.rows.Keys + st.pruned ensures id in IdsBelow(logs, st.prefix) {
      assert C.ReadId(logs, st.prefix, id);
    }
  }

  /** Zero lag means drained: when _update_lag computes a total of 0, every record below the sampled
      end offsets is in the committed table's prefix, and got its row there unless it is incomplete. */
  lemma ZeroLagMeansDrained(w: World)
    requires Reachable(w) && Step(w, Consume(C.LagDone)).Some?
    requires Step(w, Consume(C.LagDone)).value.cons.lag == 0
    ensures C.Below(w.cons.session.value.pc.ends, w.cons.durable.prefix)
    ensures C.Below(w.cons.session.value.pc.ends, C.Lens(w.logs))
    ensures IdsBelow(w.logs, w.cons.session.value.pc.ends) <= w.cons.durable.rows.Keys + w.cons.durable.pruned
    ensures OnlyIncompleteRowless(w.cons.durable, w.logs, w.cons.session.value.pc.ends)
  {
    ReachableInv(w);
    var x := w.cons.session.value;
    C.NoLagLeft(x.pc.ends, x.fetch);
    SavedIds(w.cons.durable, w.logs);
    RowlessBelow(w.cons.durable, w.logs, x.pc.ends);
  }

  // ---- end to end ------------------------------------------------------------------

  /** Everything has been delivered and consumed, and nothing was thrown away on the way. */
  ghost predicate Quiescent(w: World) {
    && Pending(w.prod.db.rows) == []
    && w.prod.db.evicted == {}
    && w.cons.store.pruned == {}
    && w.cons.offsets == C.Lens(w.logs)
  }

  /** The producer's own messages in the consumer's table. */
  ghost function Stored(w: World): set<Message> {
    set id | id in w.cons.store.rows && w.cons.store.rows[id].producer == w.me :: w.cons.store.rows[id]
  }

  /** At quiescence the table holds exactly the producer's messages that are in the log, however
      often each was appended, and every accepted message is among them. */
  lemma StoredIsLogged(w: World)
    requires Reachable(w) && Quiescent(w)
    ensures forall m: Message :: m in Stored(w) <==> m.producer == w.me && Logged(w.logs, m)
    ensures w.prod.acked <= Stored(w) <= w.prod.handed
    ensures forall id :: id in w.cons.store.rows ==> w.cons.store.rows[id].id == id
  {
    ReachableInv(w);
    forall m: Message | m.producer == w.me && Logged(w.logs, m) ensures m in Stored(w) {
      var p: nat, i: nat :| At(w.logs, p, i, m);
      assert w.cons.offsets[p] == |w.logs[p]|;
      RowOfRecord(w, p, i, m);
    }
    forall m | m in Stored(w) ensures Logged(w.logs, m) && m in w.prod.handed {
      var id :| id in w.cons.store.rows && w.cons.store.rows[id] == m;
      assert C.Read(w.logs, w.cons.store.prefix, m);
    }
  }

  /** A saved record whose id was not pruned has its own row. */
  lemma RowOfRecord(w: World, p: nat, i: nat, m: Message)
    requires Delivery.Inv(w) && At(w.logs, p, i, m) && i < w.cons.store.prefix[p] && m.id !in w.cons.store.pruned
    ensures m.id in w.cons.store.rows && w.cons.store.rows[m.id] == m
  {
    var row := w.cons.store.rows[m.id];
    assert C.Read(w.logs, w.cons.store.prefix, row);
    var q: nat, j: nat :| At(w.logs, q, j, row);
    assert row in w.known && m in w.known;
  }
}
