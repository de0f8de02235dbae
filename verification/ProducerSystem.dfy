/** The producer process as a transition system.  A step is the code between two awaits of one
    asyncio task; any number of tasks interleave.  Every SQL statement and every commit is an
    await of its own, so a crash can fall between a statement and its commit.  The broker side
    is only seen through the log: a send may be acknowledged once its message is in the log,
    and may fail at any time, whether or not the message is there. */
module ProducerSystem {
  import opened Messages
  import opened BufferTable
  import opened BufferHistory
  import opened KafkaLog

  const FLUSH_BATCH: nat := 100

  /** `connected` and `event` are the two flags, `handle` the current aiokafka producer. */
  datatype Conn = Conn(connected: bool, event: bool, handle: Option<int>)

  const DOWN := Conn(false, false, None)

  /** Where a task is suspended. */
  datatype Pc =
    | Count(m: Message)                                       // add: SELECT COUNT(*)
    | Evict(m: Message)                                       // add: DELETE of the oldest pending row
    | Insert(m: Message)                                      // add: INSERT OR IGNORE
    | CommitAdd(m: Message)                                   // add: commit
    | Send(via: Option<int>, m: Message, rest: seq<Message>)  // send_and_wait on the producer `via`
    | Mark(m: Message, rest: seq<Message>)                    // mark_sent: UPDATE
    | CommitMark(m: Message, rest: seq<Message>)              // mark_sent: commit
    | Fetch                                                   // flush: SELECT of the oldest pending rows
    | CleanSent(cutoff: real)                                 // cleanup_sent: DELETE
    | CommitClean                                             // cleanup_sent: commit
    | Closing(reopen: bool)                                   // _close_producer: await stop()
    | Creating                                                // _reconnect_once: await _create_producer()

  /** How a suspended task is resumed. */
  datatype Wake =
    | Done                  // the awaited call returned
    | DoneAt(now: real)     // the INSERT, stamped with the clock
    | Opened(handle: int)   // a new producer was created
    | Failed                // the awaited call raised
    | Lost                  // KafkaConnectionError or KafkaTimeoutError
    | Rejected              // any other KafkaError

  datatype Action =
    | StartAdd(t: nat, m: Message)
    | StartFlush(t: nat)
    | StartClean(t: nat, cutoff: real)
    | StartClose(t: nat, reopen: bool)
    | Resume(t: nat, wake: Wake)
    | Cancel(t: nat)
    | Crash

  /** `db` is what the SQLite connection sees, `durable` what is committed.  `handed`, `acked`
      and `requested` record which messages entered send_message, for which add returned True,
      and which were handed to send_and_wait. */
  datatype Producer = Producer(
    capacity: nat, db: Db, durable: Db, conn: Conn, tasks: map<nat, Pc>, clock: real,
    handed: set<Message>, acked: set<Message>, requested: set<Message>)

  // ---- one step -------------------------------------------------------------

  ghost function Move(s: Producer, t: nat, pc: Pc): Producer {
    s.(tasks := s.tasks[t := pc])
  }

  ghost function End(s: Producer, t: nat): Producer {
    s.(tasks := s.tasks - {t})
  }

  ghost function Commit(s: Producer): Producer {
    s.(durable := s.db)
  }

  ghost function BeginSend(s: Producer, t: nat, m: Message, rest: seq<Message>): Producer {
    Move(s, t, Send(s.conn.handle, m, rest)).(requested := s.requested + {m})
  }

  /** The flush loop going on with the rest of its batch. */
  ghost function Continue(s: Producer, t: nat, rest: seq<Message>): Producer {
    if rest != [] && s.conn.connected then BeginSend(s, t, rest[0], rest[1..]) else End(s, t)
  }

  /** send_message after add returned, whatever it returned. */
  ghost function AfterAdd(s: Producer, t: nat, m: Message): Producer {
    if s.conn.connected && s.conn.handle.Some? then BeginSend(s, t, m, []) else End(s, t)
  }

  /** add, having counted n pending rows. */
  ghost function Counted(s: Producer, t: nat, m: Message, n: nat): Producer {
    Move(s, t, if n >= s.capacity then Evict(m) else Insert(m))
  }

  ghost function Batch(rows: seq<Row>): (b: seq<Message>)
    ensures forall m :: m in b ==> m in PendingMsgs(rows)
  {
    var p := Pending(rows);
    var k := if |p| <= FLUSH_BATCH then |p| else FLUSH_BATCH;
    seq(k, i requires 0 <= i < k => assert p[i] in p; p[i].msg)
  }

  ghost function Woken(s: Producer, logs: Logs, t: nat, pc: Pc, wake: Wake): Option<Producer> {
    match pc
    case Count(m) =>
      // count_pending answers 0 when its query raises
      if wake.Failed? then Some(Counted(s, t, m, 0))
      else if wake.Done? then Some(Counted(s, t, m, |Pending(s.db.rows)|))
      else None
    case Evict(m) =>
      if wake.Failed? then Some(AfterAdd(s, t, m))
      else if wake.Done? then Some(Move(s.(db := EvictOldest(s.db)), t, Insert(m)))
      else None
    case Insert(m) =>
      if wake.Failed? then Some(AfterAdd(s, t, m))
      else if wake.DoneAt? && wake.now > s.clock then
        Some(Move(s.(db := BufferHistory.Insert(s.db, m, wake.now), clock := wake.now), t, CommitAdd(m)))
      else None
    case CommitAdd(m) =>
      if wake.Failed? then Some(AfterAdd(s, t, m))
      else if wake.Done? then Some(AfterAdd(Commit(s).(acked := s.acked + {m}), t, m))
      else None
    case Send(_, m, rest) =>
      if wake.Done? && Logged(logs, m) then Some(Move(s, t, Mark(m, rest)))
      else if wake.Lost? then Some(End(s.(conn := s.conn.(connected := false, event := false)), t))
      else if wake.Rejected? then Some(Continue(s, t, rest))
      else None
    case Mark(m, rest) =>
      if wake.Failed? then Some(End(s, t))
      else if wake.Done? then Some(Move(s.(db := BufferHistory.Mark(s.db, m.id)), t, CommitMark(m, rest)))
      else None
    case CommitMark(m, rest) =>
      if wake.Failed? then Some(End(s, t))
      else if wake.Done? then Some(Continue(Commit(s), t, rest))
      else None
    case Fetch =>
      // get_pending answers [] when its query raises
      if wake.Failed? then Some(End(s, t))
      else if wake.Done? then Some(Continue(s, t, Batch(s.db.rows)))
      else None
    case CleanSent(cutoff) =>
      if wake.Failed? then Some(End(s, t))
      else if wake.Done? then Some(Move(s.(db := Clean(s.db, cutoff)), t, CommitClean))
      else None
    case CommitClean =>
      if wake.Failed? then Some(End(s, t))
      else if wake.Done? then Some(End(Commit(s), t))
      else None
    case Closing(reopen) =>
      if wake.Done? || wake.Failed? then
        Some(if reopen then Move(s.(conn := DOWN), t, Creating) else End(s.(conn := DOWN), t))
      else None
    case Creating =>
      if wake.Opened? then Some(End(s.(conn := Conn(true, true, Some(wake.handle))), t))
      else if wake.Failed? then Some(End(s.(conn := s.conn.(connected := false, event := false)), t))
      else None
  }

  /** One step; None when the action is not enabled. */
  ghost function Step(s: Producer, logs: Logs, a: Action): Option<Producer> {
    match a
    case StartAdd(t, m) =>
      if t in s.tasks || m in s.handed then None
      else Some(Move(s, t, Count(m)).(handed := s.handed + {m}))
    case StartFlush(t) =>
      if t in s.tasks || !s.conn.connected then None else Some(Move(s, t, Fetch))
    case StartClean(t, cutoff) =>
      if t in s.tasks then None else Some(Move(s, t, CleanSent(cutoff)))
    case StartClose(t, reopen) =>
      if t in s.tasks then None
      else if s.conn.handle.Some? then Some(Move(s, t, Closing(reopen)))
      else if reopen then Some(Move(s, t, Creating))
      else None
    case Resume(t, wake) =>
      if t in s.tasks then Woken(s, logs, t, s.tasks[t], wake) else None
    case Cancel(t) =>
      if t !in s.tasks then None
      else if s.tasks[t].Closing? then Some(End(s.(conn := DOWN), t))
      else Some(End(s, t))
    case Crash =>
      Some(s.(db := s.durable, conn := DOWN, tasks := map[]))
  }

  ghost predicate Init(s: Producer) {
    && s.db == s.durable == EMPTY
    && s.conn == DOWN
    && s.tasks == map[]
    && s.handed == s.acked == s.requested == {}
  }

  /** The statements that change the table. */
  predicate Changes(pc: Pc) { pc.Evict? || pc.Insert? || pc.Mark? || pc.CleanSent? }

  lemma SameTable(s: Producer, logs: Logs, t: nat, wake: Wake)
    requires t in s.tasks && Woken(s, logs, t, s.tasks[t], wake).Some?
    requires wake.Failed? || !Changes(s.tasks[t])
    ensures Woken(s, logs, t, s.tasks[t], wake).value.db == s.db
  {
  }

  /** No failure is excluded: at every await the coroutine can be cancelled, a statement or a call of its
      own can fail without an effect on the table or on what was accepted, and a send can be lost or refused. */
  lemma AnythingCanFail(s: Producer, logs: Logs, t: nat)
    requires t in s.tasks
    ensures Step(s, logs, Cancel(t)).Some? && t !in Step(s, logs, Cancel(t)).value.tasks
    ensures !s.tasks[t].Send? ==>
      var s' := Step(s, logs, Resume(t, Failed));
      s'.Some? && s'.value.db == s.db && s'.value.durable == s.durable && s'.value.acked == s.acked
    ensures s.tasks[t].Send? ==>
      var lost, refused := Step(s, logs, Resume(t, Lost)), Step(s, logs, Resume(t, Rejected));
      lost.Some? && !lost.value.conn.connected && refused.Some? && refused.value.conn == s.conn
  {
    if s.tasks[t].Send? {
      assert Woken(s, logs, t, s.tasks[t], Rejected).Some?;
    } else {
      assert Woken(s, logs, t, s.tasks[t], Failed).Some?;
    }
  }

  // ---- the invariant ----------------------------------------------------------

  predicate BeforeInsert(pc: Pc) { pc.Count? || pc.Evict? || pc.Insert? }

  predicate Adding(pc: Pc) { BeforeInsert(pc) || pc.CommitAdd? }

  /** `_connected` and the event agree, and a connected producer exists. */
  ghost predicate ConnInv(c: Conn) {
    c.connected == c.event && (c.connected ==> c.handle.Some?)
  }

  /** The two sides of the buffer (visible and committed) keep the same promises. */
  ghost predicate DbInv(db: Db, s: Producer, logs: Logs) {
    && BufferHistory.Inv(db, s.clock)
    && db.inserted <= s.handed
    && (forall m :: m in db.marked ==> Logged(logs, m))
  }

  ghost predicate TaskInv(pc: Pc, s: Producer, logs: Logs) {
    match pc
    case Count(m) => m in s.handed
    case Evict(m) => m in s.handed
    case Insert(m) => m in s.handed
    case CommitAdd(m) => m in s.db.inserted
    case Send(via, m, rest) => via.Some? && m in s.handed && forall r :: r in rest ==> r in s.handed
    case Mark(m, rest) => m in s.handed && Logged(logs, m) && forall r :: r in rest ==> r in s.handed
    case CommitMark(m, rest) => m in s.handed && Logged(logs, m) && forall r :: r in rest ==> r in s.handed
    case _ => true
  }

  /** A message is inserted by one add only. */
  ghost predicate FreshAdds(s: Producer) {
    && (forall t :: t in s.tasks && BeforeInsert(s.tasks[t]) ==> s.tasks[t].m !in s.db.inserted)
    && (forall t, u :: t in s.tasks && u in s.tasks && t != u && BeforeInsert(s.tasks[t]) && BeforeInsert(s.tasks[u]) ==>
         s.tasks[t].m != s.tasks[u].m)
  }

  ghost predicate Inv(s: Producer, logs: Logs) {
    && UniqueIds(s.handed)
    && DbInv(s.db, s, logs)
    && DbInv(s.durable, s, logs)
    && s.acked <= s.durable.inserted <= s.db.inserted
    && s.requested <= s.handed
    && ConnInv(s.conn)
    && FreshAdds(s)
    && (forall t :: t in s.tasks ==> TaskInv(s.tasks[t], s, logs))
  }

  lemma InitInv(s: Producer, logs: Logs)
    requires Init(s)
    ensures Inv(s, logs)
  {
  }

  /** The log only grows; the producer does not notice. */
  lemma LogGrows(s: Producer, logs: Logs, logs': Logs)
    requires Inv(s, logs)
    requires forall m :: Logged(logs, m) ==> Logged(logs', m)
    ensures Inv(s, logs')
  {
    forall t | t in s.tasks ensures TaskInv(s.tasks[t], s, logs') {
      assert TaskInv(s.tasks[t], s, logs);
    }
  }

  // Each step is a few of these moves, and each move keeps the invariant.

  lemma EndInv(s: Producer, logs: Logs, t: nat)
    requires Inv(s, logs)
    ensures Inv(End(s, t), logs)
  {
  }

  lemma MoveInv(s: Producer, logs: Logs, t: nat, pc: Pc)
    requires Inv(s, logs) && TaskInv(pc, s, logs)
    requires BeforeInsert(pc) ==>
      || (t in s.tasks && BeforeInsert(s.tasks[t]) && s.tasks[t].m == pc.m)
      || (pc.m !in s.db.inserted && forall u :: u in s.tasks && BeforeInsert(s.tasks[u]) ==> s.tasks[u].m != pc.m)
    ensures Inv(Move(s, t, pc), logs)
  {
  }

  lemma ConnMoveInv(s: Producer, logs: Logs, c: Conn)
    requires Inv(s, logs) && ConnInv(c)
    ensures Inv(s.(conn := c), logs)
  {
    forall t | t in s.tasks ensures TaskInv(s.tasks[t], s.(conn := c), logs) {
      assert TaskInv(s.tasks[t], s, logs);
    }
  }

  lemma DbMoveInv(s: Producer, logs: Logs, db: Db, clock: real)
    requires Inv(s, logs)
    requires BufferHistory.Inv(db, clock) && s.clock <= clock
    requires s.db.inserted <= db.inserted <= s.handed
    requires forall m :: m in db.marked ==> Logged(logs, m)
    requires forall t :: t in s.tasks && BeforeInsert(s.tasks[t]) ==> s.tasks[t].m !in db.inserted
    ensures Inv(s.(db := db, clock := clock), logs)
  {
    var s' := s.(db := db, clock := clock);
    forall t | t in s.tasks ensures TaskInv(s.tasks[t], s', logs) {
      assert TaskInv(s.tasks[t], s, logs);
    }
  }

  lemma CommitInv(s: Producer, logs: Logs)
    requires Inv(s, logs)
    ensures Inv(Commit(s), logs)
  {
    forall t | t in s.tasks ensures TaskInv(s.tasks[t], Commit(s), logs) {
      assert TaskInv(s.tasks[t], s, logs);
    }
  }

  lemma AckInv(s: Producer, logs: Logs, m: Message)
    requires Inv(s, logs) && m in s.durable.inserted
    ensures Inv(s.(acked := s.acked + {m}), logs)
  {
    var s' := s.(acked := s.acked + {m});
    forall t | t in s.tasks ensures TaskInv(s.tasks[t], s', logs) {
      assert TaskInv(s.tasks[t], s, logs);
    }
  }

  /** The INSERT takes its coroutine from before the insert to after it in one go. */
  lemma InsertMoveInv(s: Producer, logs: Logs, t: nat, m: Message, now: real)
    requires Inv(s, logs) && t in s.tasks && s.tasks[t] == Insert(m) && now > s.clock && m in s.handed
    ensures Inv(Move(s.(db := BufferHistory.Insert(s.db, m, now), clock := now), t, CommitAdd(m)), logs)
  {
    var e := End(s, t);
    EndInv(s, logs, t);
    NobodyElseInserts(s, logs, t, m);
    InsertDbInv(e, logs, m, now);
    MoveInv(e.(db := BufferHistory.Insert(s.db, m, now), clock := now), logs, t, CommitAdd(m));
    assert e.tasks[t := CommitAdd(m)] == s.tasks[t := CommitAdd(m)];
  }

  lemma NobodyElseInserts(s: Producer, logs: Logs, t: nat, m: Message)
    requires Inv(s, logs) && t in s.tasks && s.tasks[t] == Insert(m)
    ensures m !in s.db.inserted
    ensures forall u :: u in End(s, t).tasks && BeforeInsert(s.tasks[u]) ==> s.tasks[u].m != m
  {
  }

  lemma InsertDbInv(s: Producer, logs: Logs, m: Message, now: real)
    requires Inv(s, logs) && now > s.clock && m in s.handed && m !in s.db.inserted
    requires forall u :: u in s.tasks && BeforeInsert(s.tasks[u]) ==> s.tasks[u].m != m
    ensures Inv(s.(db := BufferHistory.Insert(s.db, m, now), clock := now), logs)
  {
    InsertKeepsInv(s.db, s.clock, m, now);
    DbMoveInv(s, logs, BufferHistory.Insert(s.db, m, now), now);
  }

  lemma BeginSendInv(s: Producer, logs: Logs, t: nat, m: Message, rest: seq<Message>)
    requires Inv(s, logs) && s.conn.handle.Some?
    requires m in s.handed && forall r :: r in rest ==> r in s.handed
    ensures Inv(BeginSend(s, t, m, rest), logs)
  {
    MoveInv(s, logs, t, Send(s.conn.handle, m, rest));
    var s' := BeginSend(s, t, m, rest);
    forall u | u in s'.tasks ensures TaskInv(s'.tasks[u], s', logs) {
      assert TaskInv(s'.tasks[u], Move(s, t, Send(s.conn.handle, m, rest)), logs);
    }
  }

  lemma ContinueInv(s: Producer, logs: Logs, t: nat, rest: seq<Message>)
    requires Inv(s, logs) && forall r :: r in rest ==> r in s.handed
    ensures Inv(Continue(s, t, rest), logs)
  {
    EndInv(s, logs, t);
    if rest != [] && s.conn.connected {
      BeginSendInv(s, logs, t, rest[0], rest[1..]);
    }
  }

  lemma AfterAddInv(s: Producer, logs: Logs, t: nat, m: Message)
    requires Inv(s, logs) && m in s.handed
    ensures Inv(AfterAdd(s, t, m), logs)
  {
    EndInv(s, logs, t);
    if s.conn.connected && s.conn.handle.Some? {
      BeginSendInv(s, logs, t, m, []);
    }
  }

  /** Every step keeps the invariant, whichever tasks are suspended where. */
  lemma StepInv(s: Producer, logs: Logs, a: Action)
    requires Inv(s, logs) && Step(s, logs, a).Some?
    requires a.StartAdd? ==> UniqueIds(s.handed + {a.m})
    ensures Inv(Step(s, logs, a).value, logs)
  {
    match a
    case StartAdd(t, m) =>
      HandInv(s, logs, m);
      MoveInv(s.(handed := s.handed + {m}), logs, t, Count(m));
    case StartFlush(t) => MoveInv(s, logs, t, Fetch);
    case StartClean(t, cutoff) => MoveInv(s, logs, t, CleanSent(cutoff));
    case StartClose(t, reopen) =>
      MoveInv(s, logs, t, if s.conn.handle.Some? then Closing(reopen) else Creating);
    case Resume(t, wake) => WokenInv(s, logs, t, wake);
    case Cancel(t) =>
      EndInv(s, logs, t);
      ConnMoveInv(End(s, t), logs, DOWN);
    case Crash =>
  }

  lemma HandInv(s: Producer, logs: Logs, m: Message)
    requires Inv(s, logs) && m !in s.handed && UniqueIds(s.handed + {m})
    ensures Inv(s.(handed := s.handed + {m}), logs)
    ensures forall t :: t in s.tasks && BeforeInsert(s.tasks[t]) ==> s.tasks[t].m != m
  {
    var s' := s.(handed := s.handed + {m});
    forall t | t in s.tasks ensures TaskInv(s.tasks[t], s', logs) && (BeforeInsert(s.tasks[t]) ==> s.tasks[t].m != m) {
      assert TaskInv(s.tasks[t], s, logs);
    }
  }

  lemma WokenInv(s: Producer, logs: Logs, t: nat, wake: Wake)
    requires Inv(s, logs) && t in s.tasks
    requires Woken(s, logs, t, s.tasks[t], wake).Some?
    ensures Inv(Woken(s, logs, t, s.tasks[t], wake).value, logs)
  {
    var pc := s.tasks[t];
    assert TaskInv(pc, s, logs);
    match pc
    case Count(m) => WokenAdd(s, logs, t, wake);
    case Evict(m) => WokenAdd(s, logs, t, wake);
    case Insert(m) => WokenAdd(s, logs, t, wake);
    case CommitAdd(m) => WokenAdd(s, logs, t, wake);
    case Send(_, m, rest) => WokenSend(s, logs, t, wake);
    case Mark(m, rest) => WokenSend(s, logs, t, wake);
    case CommitMark(m, rest) => WokenSend(s, logs, t, wake);
    case Fetch =>
      EndInv(s, logs, t);
      RowsAreInserted(s.db, s.clock);
      ContinueInv(s, logs, t, Batch(s.db.rows));
    case CleanSent(cutoff) =>
      EndInv(s, logs, t);
      CleanKeepsInv(s.db, s.clock, cutoff);
      DbMoveInv(s, logs, Clean(s.db, cutoff), s.clock);
      MoveInv(s.(db := Clean(s.db, cutoff)), logs, t, CommitClean);
    case CommitClean =>
      EndInv(s, logs, t);
      CommitInv(s, logs);
      EndInv(Commit(s), logs, t);
    case Closing(reopen) =>
      ConnMoveInv(s, logs, DOWN);
      EndInv(s.(conn := DOWN), logs, t);
      MoveInv(s.(conn := DOWN), logs, t, Creating);
    case Creating =>
      var c := if wake.Opened? then Conn(true, true, Some(wake.handle)) else s.conn.(connected := false, event := false);
      ConnMoveInv(s, logs, c);
      EndInv(s.(conn := c), logs, t);
  }

  lemma WokenAdd(s: Producer, logs: Logs, t: nat, wake: Wake)
    requires Inv(s, logs) && t in s.tasks && Adding(s.tasks[t])
    requires Woken(s, logs, t, s.tasks[t], wake).Some?
    ensures Inv(Woken(s, logs, t, s.tasks[t], wake).value, logs)
  {
    var pc := s.tasks[t];
    var m := pc.m;
    assert TaskInv(pc, s, logs);
    if pc.Count? {
      var n := if wake.Failed? then 0 else |Pending(s.db.rows)|;
      MoveInv(s, logs, t, if n >= s.capacity then Evict(m) else Insert(m));
    } else if wake.Failed? {
      AfterAddInv(s, logs, t, m);
    } else {
      match pc
      case Evict(_) =>
        EvictKeepsInv(s.db, s.clock);
        DbMoveInv(s, logs, EvictOldest(s.db), s.clock);
        MoveInv(s.(db := EvictOldest(s.db)), logs, t, Insert(m));
      case Insert(_) =>
        InsertMoveInv(s, logs, t, m, wake.now);
      case CommitAdd(_) =>
        CommitInv(s, logs);
        AckInv(Commit(s), logs, m);
        AfterAddInv(Commit(s).(acked := s.acked + {m}), logs, t, m);
    }
  }

  lemma WokenSend(s: Producer, logs: Logs, t: nat, wake: Wake)
    requires Inv(s, logs) && t in s.tasks && (s.tasks[t].Send? || s.tasks[t].Mark? || s.tasks[t].CommitMark?)
    requires Woken(s, logs, t, s.tasks[t], wake).Some?
    ensures Inv(Woken(s, logs, t, s.tasks[t], wake).value, logs)
  {
    var pc := s.tasks[t];
    var m, rest := pc.m, pc.rest;
    assert TaskInv(pc, s, logs);
    EndInv(s, logs, t);
    match pc
    case Send(_, _, _) =>
      if wake.Done? {
        MoveInv(s, logs, t, Mark(m, rest));
      } else if wake.Lost? {
        var c := s.conn.(connected := false, event := false);
        ConnMoveInv(s, logs, c);
        EndInv(s.(conn := c), logs, t);
      } else {
        ContinueInv(s, logs, t, rest);
      }
    case Mark(_, _) => MarkMoveInv(s, logs, t, m, rest);
    case CommitMark(_, _) =>
      CommitInv(s, logs);
      ContinueInv(Commit(s), logs, t, rest);
  }

  lemma MarkMoveInv(s: Producer, logs: Logs, t: nat, m: Message, rest: seq<Message>)
    requires Inv(s, logs) && m in s.handed && Logged(logs, m) && forall r :: r in rest ==> r in s.handed
    ensures Inv(Move(s.(db := BufferHistory.Mark(s.db, m.id)), t, CommitMark(m, rest)), logs)
  {
    var db := BufferHistory.Mark(s.db, m.id);
    MarkKeepsInv(s.db, s.clock, m.id);
    assert forall n :: n in db.marked ==> n in s.db.marked || n == m;
    DbMoveInv(s, logs, db, s.clock);
    MoveInv(s.(db := db), logs, t, CommitMark(m, rest));
  }
}
