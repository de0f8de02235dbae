/** Every flush pass of the FlushSpec function, and so of ResilientKafkaProducer.FlushBuffer, is a
    run of the pipeline: the same await-by-await steps of the producer, appends of the broker, and
    other tasks taking the connection down or bringing it back.  So is every SendMessage. */
module FlushRefinement {
  import opened Messages
  import opened BufferTable
  import opened BufferHistory
  import opened KafkaLog
  import opened Delivery
  import F = FlushSpec
  import K = KafkaProducer
  import M = MessageBuffer
  import P = ProducerSystem

  ghost predicate Leads(w0: World, w: World) {
    exists run :: Run(w0, run) == Some(w)
  }

  lemma LeadsStep(w0: World, w: World, a: Action, w': World)
    requires Leads(w0, w) && Step(w, a) == Some(w')
    ensures Leads(w0, w')
  {
    var run :| Run(w0, run) == Some(w);
    RunMore(w0, run, a);
    assert Run(w0, run + [a]) == Some(w');
  }

  lemma LeadsInv(w0: World, w: World)
    requires Delivery.Inv(w0) && Leads(w0, w)
    ensures Delivery.Inv(w)
  {
    var run :| Run(w0, run) == Some(w);
    RunInv(w0, run);
  }

  function Goods(log: seq<Message>): seq<Record> {
    seq(|log|, i requires 0 <= i < |log| => Good(log[i]))
  }

  /** The world has come from w0 and looks like the pass's state: same table, same connection flag,
      and its own partition has grown by the pass's log. */
  ghost predicate Like(w0: World, w: World, st: F.State) {
    && Leads(w0, w)
    && w.me == w0.me && w.route == w0.route && w.cons == w0.cons && |w0.logs| > 0
    && w.logs == w0.logs[Partition(w0, w0.me) := w0.logs[Partition(w0, w0.me)] + Goods(st.log)]
    && w.prod.db.rows == st.rows
    && w.prod.conn.connected == st.connected
  }

  /** The flush task, alone, is sending m and has `rest` left. */
  ghost predicate Sending(w: World, m: Message, rest: seq<Message>) {
    && w.prod.tasks.Keys == {0}
    && w.prod.tasks[0].Send? && w.prod.tasks[0].m == m && w.prod.tasks[0].rest == rest
    && m in w.prod.requested && m.producer == w.me
  }

  ghost predicate NoTasks(w: World) {
    w.prod.tasks == map[]
  }

  /** The same, for what one task of the producer can do. */
  lemma ProducerStep(w0: World, w: World, st: F.State, a: P.Action, s: P.Producer)
    requires Like(w0, w, st)
    requires P.Step(w.prod, w.logs, a) == Some(s) && !a.StartAdd?
    ensures Leads(w0, w.(prod := s))
    ensures Like(w0, w.(prod := s), st.(rows := s.db.rows, connected := s.conn.connected))
  {
    LeadsStep(w0, w, Produce(a), w.(prod := s));
  }

  // ---- the connection ---------------------------------------------------------------

  /** Another task brings the connection to any state, at any await. */
  lemma Relink(w0: World, w: World, st: F.State, b: bool) returns (w': World)
    requires Delivery.Inv(w0) && Like(w0, w, st) && 1 !in w.prod.tasks
    ensures Like(w0, w', st.(connected := b))
    ensures w'.prod.tasks == w.prod.tasks && w'.prod.requested == w.prod.requested && w'.prod.db == w.prod.db
    ensures w'.me == w.me && w'.logs == w.logs && w'.prod.acked == w.prod.acked
  {
    if w.prod.conn.connected == b {
      w' := w;
    } else if b {
      w' := BringUp(w0, w, st);
    } else {
      LeadsInv(w0, w);
      w' := TakeDown(w0, w, st);
    }
  }

  lemma TakeDown(w0: World, w: World, st: F.State) returns (w': World)
    requires Like(w0, w, st) && 1 !in w.prod.tasks && w.prod.conn.handle.Some?
    ensures Like(w0, w', st.(connected := false))
    ensures w'.prod.tasks == w.prod.tasks && w'.prod.requested == w.prod.requested && w'.prod.db == w.prod.db
    ensures w'.me == w.me && w'.logs == w.logs && w'.prod.acked == w.prod.acked
  {
    var s1 := P.Move(w.prod, 1, P.Closing(false));
    ProducerStep(w0, w, st, P.StartClose(1, false), s1);
    var s2 := P.End(s1.(conn := P.DOWN), 1);
    ProducerStep(w0, w.(prod := s1), st, P.Resume(1, P.Done), s2);
    w' := w.(prod := s2);
    assert s2.tasks == w.prod.tasks;
  }

  lemma BringUp(w0: World, w: World, st: F.State) returns (w': World)
    requires Like(w0, w, st) && 1 !in w.prod.tasks && !st.connected
    ensures Like(w0, w', st.(connected := true))
    ensures w'.prod.tasks == w.prod.tasks && w'.prod.requested == w.prod.requested && w'.prod.db == w.prod.db
    ensures w'.me == w.me && w'.logs == w.logs && w'.prod.acked == w.prod.acked
  {
    var s := w.prod;
    var creating;
    if s.conn.handle.Some? {
      var s1 := P.Move(s, 1, P.Closing(true));
      ProducerStep(w0, w, st, P.StartClose(1, true), s1);
      creating := P.Move(s1.(conn := P.DOWN), 1, P.Creating);
      ProducerStep(w0, w.(prod := s1), st, P.Resume(1, P.Done), creating);
    } else {
      creating := P.Move(s, 1, P.Creating);
      ProducerStep(w0, w, st, P.StartClose(1, true), creating);
    }
    var up := P.End(creating.(conn := P.Conn(true, true, Some(0))), 1);
    ProducerStep(w0, w.(prod := creating), st.(connected := creating.conn.connected), P.Resume(1, P.Opened(0)), up);
    w' := w.(prod := up);
    assert up.tasks == s.tasks;
  }

  // ---- one send -----------------------------------------------------------------------

  /** The broker appends the message being sent. */
  lemma Appends(w0: World, w: World, st: F.State, m: Message) returns (w': World)
    requires Like(w0, w, st) && m in w.prod.requested && m.producer == w.me
    ensures Like(w0, w', st.(log := st.log + [m])) && w'.prod == w.prod && w'.me == w.me
    ensures Logged(w'.logs, m)
  {
    var p := Partition(w0, w0.me);
    w' := w.(logs := KafkaLog.Append(w.logs, p, Good(m)));
    LeadsStep(w0, w, Append(m), w');
    AppendKeeps(w.logs, p, Good(m));
    assert Goods(st.log + [m]) == Goods(st.log) + [Good(m)];
    assert w0.logs[p] + Goods(st.log) + [Good(m)] == w0.logs[p] + Goods(st.log + [m]);
  }

  /** What the flush task does next, with `rest` to send. */
  ghost predicate GoesOn(w: World, rest: seq<Message>) {
    if rest != [] && w.prod.conn.connected then Sending(w, rest[0], rest[1..]) else NoTasks(w)
  }

  lemma Continues(w0: World, w: World, st: F.State, a: P.Action, s: P.Producer, rest: seq<Message>) returns (w': World)
    requires Like(w0, w, st) && w.prod.tasks.Keys == {0}
    requires s.tasks == w.prod.tasks && s.conn == w.prod.conn && s.db == w.prod.db && s.acked == w.prod.acked
    requires P.Step(w.prod, w.logs, a) == Some(P.Continue(s, 0, rest)) && !a.StartAdd?
    requires forall r :: r in rest ==> r.producer == w.me
    ensures Like(w0, w', st) && GoesOn(w', rest) && w'.me == w.me && w'.prod.acked == w.prod.acked
  {
    var s' := P.Continue(s, 0, rest);
    ProducerStep(w0, w, st, a, s');
    w' := w.(prod := s');
    if rest != [] && s.conn.connected {
      assert s'.tasks.Keys == {0};
    } else {
      assert s'.tasks.Keys == {};
    }
  }

  /** _send_single, with everything that happens at its awaits. */
  lemma SendRuns(w0: World, w: World, st: F.State, m: Message, rest: seq<Message>, env: F.Env) returns (w': World)
    requires Delivery.Inv(w0) && Like(w0, w, st) && Sending(w, m, rest)
    requires forall r :: r in rest ==> r.producer == w.me
    ensures var (st', ok) := F.SendSingle(st, m, env);
      && Like(w0, w', st') && w'.me == w.me && GoesOn(w', rest) && w'.prod.acked == w.prod.acked
  {
    var o := env.outcome(st.tick);
    var st1 := st.(log := st.log + F.Appended(o, m));
    var w1 := w;
    if o.Acked? || o.appended {
      w1 := Appends(w0, w, st, m);
    } else {
      assert st.log + [] == st.log;
    }
    match o
    case Acked => w' := AckRuns(w0, w1, st1, m, rest, env.link(st.tick));
    case Lost(_) =>
      var s := P.End(w1.prod.(conn := w1.prod.conn.(connected := false, event := false)), 0);
      ProducerStep(w0, w1, st1, P.Resume(0, P.Lost), s);
      w' := w1.(prod := s);
      assert s.tasks.Keys == {};
    case Rejected(_) =>
      var w2 := Relink(w0, w1, st1, env.link(st.tick));
      w' := Continues(w0, w2, st1.(connected := env.link(st.tick)), P.Resume(0, P.Rejected), w2.prod, rest);
  }

  /** The acknowledgement and the UPDATE. */
  lemma MarkRuns(w0: World, w: World, st: F.State, m: Message, rest: seq<Message>) returns (w': World)
    requires Like(w0, w, st) && Sending(w, m, rest) && Logged(w.logs, m)
    ensures Like(w0, w', st.(rows := MarkSent(st.rows, m.id))) && w'.me == w.me
    ensures w'.prod.tasks.Keys == {0} && w'.prod.tasks[0] == P.CommitMark(m, rest) && w'.prod.acked == w.prod.acked
  {
    var s1 := P.Move(w.prod, 0, P.Mark(m, rest));
    ProducerStep(w0, w, st, P.Resume(0, P.Done), s1);
    var s2 := P.Move(s1.(db := Mark(s1.db, m.id)), 0, P.CommitMark(m, rest));
    ProducerStep(w0, w.(prod := s1), st, P.Resume(0, P.Done), s2);
    w' := w.(prod := s2);
  }

  /** The acknowledgement, the UPDATE, its commit. */
  lemma AckRuns(w0: World, w: World, st: F.State, m: Message, rest: seq<Message>, b: bool) returns (w': World)
    requires Delivery.Inv(w0) && Like(w0, w, st) && Sending(w, m, rest) && Logged(w.logs, m)
    requires forall r :: r in rest ==> r.producer == w.me
    ensures Like(w0, w', st.(rows := MarkSent(st.rows, m.id), connected := b)) && w'.me == w.me && GoesOn(w', rest)
    ensures w'.prod.acked == w.prod.acked
  {
    var w1 := MarkRuns(w0, w, st, m, rest);
    var st1 := st.(rows := MarkSent(st.rows, m.id));
    var w2 := Relink(w0, w1, st1, b);
    w' := Continues(w0, w2, st1.(connected := b), P.Resume(0, P.Done), P.Commit(w2.prod), rest);
  }

  // ---- a batch, a pass -------------------------------------------------------------------

  lemma {:induction false} BatchRuns(w0: World, w: World, st: F.State, batch: seq<Message>, env: F.Env, sent: nat) returns (w': World)
    requires Delivery.Inv(w0) && Like(w0, w, st) && GoesOn(w, batch)
    requires forall r :: r in batch ==> r.producer == w.me
    ensures Like(w0, w', F.SendBatch(st, batch, env, sent).0) && NoTasks(w') && w'.me == w.me
    decreases batch
  {
    if batch == [] || !st.connected {
      w' := w;
    } else {
      var (st1, ok) := F.SendSingle(st, batch[0], env);
      var w1 := SendRuns(w0, w, st, batch[0], batch[1..], env);
      w' := BatchRuns(w0, w1, st1, batch[1..], env, if ok then sent + 1 else sent);
    }
  }

  lemma BatchIsOldest(rows: seq<Row>)
    ensures P.Batch(rows) == F.Oldest(rows, F.BATCH)
  {
  }

  lemma OwnMessages(w: World)
    requires Delivery.Inv(w)
    ensures forall m :: m in P.Batch(w.prod.db.rows) ==> m.producer == w.me
  {
    RowsAreInserted(w.prod.db, w.prod.clock);
  }

  /** The flush task is about to query, with the connection in any state. */
  lemma FlushWakes(w0: World, w: World, st: F.State, b: bool) returns (w': World)
    requires Delivery.Inv(w0) && Like(w0, w, st) && NoTasks(w)
    ensures Like(w0, w', st.(connected := b)) && w'.me == w.me
    ensures w'.prod.tasks.Keys == {0} && w'.prod.tasks[0] == P.Fetch
  {
    var w1 := Relink(w0, w, st, true);
    var s := P.Move(w1.prod, 0, P.Fetch);
    ProducerStep(w0, w1, st.(connected := true), P.StartFlush(0), s);
    w' := Relink(w0, w1.(prod := s), st.(connected := true), b);
  }

  /** The query returns the batch, or raises. */
  lemma QueryRuns(w0: World, w: World, st: F.State, b: bool) returns (w': World)
    requires Like(w0, w, st) && w.prod.tasks.Keys == {0} && w.prod.tasks[0] == P.Fetch
    requires forall m :: m in F.Oldest(st.rows, F.BATCH) ==> m.producer == w.me
    ensures Like(w0, w', st) && GoesOn(w', if b then F.Oldest(st.rows, F.BATCH) else []) && w'.me == w.me
  {
    BatchIsOldest(st.rows);
    if b {
      w' := Continues(w0, w, st, P.Resume(0, P.Done), w.prod, F.Oldest(st.rows, F.BATCH));
    } else {
      w' := Continues(w0, w, st, P.Resume(0, P.Failed), w.prod, []);
    }
  }

  /** The SELECT at the head of `while True`. */
  lemma FetchRuns(w0: World, w: World, st: F.State, env: F.Env, answers: nat -> bool) returns (w': World)
    requires Delivery.Inv(w0) && Like(w0, w, st) && NoTasks(w)
    ensures Like(w0, w', F.Yield(st, env)) && GoesOn(w', F.Fetched(F.Yield(st, env), answers)) && w'.me == w.me
    ensures forall m :: m in F.Fetched(F.Yield(st, env), answers) ==> m.producer == w.me
  {
    OldestAreOwn(w0, w, st);
    var b := env.link(st.tick);
    var w1 := FlushWakes(w0, w, st, b);
    w' := QueryRuns(w0, w1, st.(connected := b), answers(st.tick));
  }

  lemma OldestAreOwn(w0: World, w: World, st: F.State)
    requires Delivery.Inv(w0) && Like(w0, w, st)
    ensures forall m :: m in F.Oldest(st.rows, F.BATCH) ==> m.producer == w.me
  {
    LeadsInv(w0, w);
    OwnMessages(w);
    BatchIsOldest(st.rows);
  }

  lemma {:induction false} PassRuns(w0: World, w: World, st: F.State, env: F.Env, answers: nat -> bool) returns (w': World)
    requires Delivery.Inv(w0) && Like(w0, w, st) && NoTasks(w) && Chronological(st.rows)
    ensures Like(w0, w', F.Flush(st, env, answers).0) && NoTasks(w')
    decreases |F.Queue(st.rows)|
  {
    var st0 := F.Yield(st, env);
    var batch := F.Fetched(st0, answers);
    var w1 := FetchRuns(w0, w, st, env, answers);
    if batch == [] {
      w' := w1;
    } else {
      F.FetchedWaits(st0, answers);
      F.BatchShrinksQueue(st0, batch, env, 0);
      var w2 := BatchRuns(w0, w1, st0, batch, env, 0);
      var (st1, sent, lost) := F.SendBatch(st0, batch, env, 0);
      if lost {
        w' := w2;
      } else {
        var w3 := Relink(w0, w2, st1, env.link(st1.tick));
        if sent == 0 {
          w' := w3;
        } else {
          w' := PassRuns(w0, w3, F.Yield(st1, env), env, answers);
        }
      }
    }
  }

  /** From any reachable world in which no task of the producer is under way, what a flush pass does
      to the table and to the log in any environment is what some run of the pipeline does. */
  lemma FlushIsARun(w: World, env: F.Env, answers: nat -> bool, tick: nat) returns (w': World)
    requires Reachable(w) && NoTasks(w) && |w.logs| > 0
    ensures Chronological(w.prod.db.rows)
    ensures var st' := F.Flush(F.State(w.prod.db.rows, [], w.prod.conn.connected, tick), env, answers).0;
      && Reachable(w') && NoTasks(w')
      && w'.prod.db.rows == st'.rows
      && w'.logs == w.logs[Partition(w, w.me) := w.logs[Partition(w, w.me)] + Goods(st'.log)]
  {
    ReachableInv(w);
    var st := F.State(w.prod.db.rows, [], w.prod.conn.connected, tick);
    LikeSelf(w, st);
    w' := PassRuns(w, w, st, env, answers);
    ReachableLeads(w, w');
  }

  // ---- send_message -------------------------------------------------------------------

  /** The only task is an add that has come to `pc`. */
  ghost predicate AddsAt(w: World, pc: P.Pc) {
    w.prod.tasks == map[0 := pc] && w.prod.handed <= w.known
  }

  lemma AddStep(w0: World, w: World, st: F.State, pc: P.Pc, wake: P.Wake, pc': P.Pc, db: Db, clock: real) returns (w': World)
    requires Like(w0, w, st) && AddsAt(w, pc)
    requires P.Woken(w.prod, w.logs, 0, pc, wake) == Some(P.Move(w.prod.(db := db, clock := clock), 0, pc'))
    ensures Like(w0, w', st.(rows := db.rows)) && AddsAt(w', pc') && w'.me == w.me
    ensures w'.prod.db == db && w'.prod.clock == clock && w'.prod.capacity == w.prod.capacity && w'.prod.acked == w.prod.acked
  {
    var s := P.Move(w.prod.(db := db, clock := clock), 0, pc');
    ProducerStep(w0, w, st, P.Resume(0, wake), s);
    w' := w.(prod := s);
    assert s.tasks == map[0 := pc'];
  }

  lemma AddStarts(w0: World, w: World, st: F.State, m: Message) returns (w': World)
    requires Like(w0, w, st) && NoTasks(w) && m.producer == w.me && Fresh(w, m) && m !in w.prod.handed
    requires w.prod.handed <= w.known
    ensures Like(w0, w', st) && AddsAt(w', P.Count(m)) && w'.me == w.me
    ensures w'.prod.db == w.prod.db && w'.prod.clock == w.prod.clock && w'.prod.capacity == w.prod.capacity
    ensures w'.prod.acked == w.prod.acked
  {
    var s := P.Move(w.prod, 0, P.Count(m)).(handed := w.prod.handed + {m});
    ProducerSteps(w, P.StartAdd(0, m), s);
    w' := w.(prod := s, known := w.known + {m});
    LeadsStep(w0, w, Produce(P.StartAdd(0, m)), w');
  }

  /** The add ends, whatever with, on a connection in any state. */
  lemma AddEnds(w0: World, w: World, st: F.State, pc: P.Pc, wake: P.Wake, b: bool) returns (w': World)
    requires Delivery.Inv(w0) && Like(w0, w, st) && AddsAt(w, pc) && P.Adding(pc) && !pc.Count? && pc.m.producer == w.me
    requires wake.Failed? || (pc.CommitAdd? && wake.Done?)
    ensures Like(w0, w', st.(connected := b)) && GoesOn(w', [pc.m]) && w'.me == w.me
    ensures w'.prod.acked == w.prod.acked + if wake.Failed? then {} else {pc.m}
  {
    var w1 := Relink(w0, w, st, b);
    ConnectedHasHandle(w0, w1);
    var s := if wake.Failed? then w1.prod else P.Commit(w1.prod).(acked := w1.prod.acked + {pc.m});
    var s' := P.AfterAdd(s, 0, pc.m);
    EndWakes(w1.prod, w1.logs, pc, wake, s);
    ProducerStep(w0, w1, st.(connected := b), P.Resume(0, wake), s');
    w' := w1.(prod := s');
    AfterAddGoesOn(s, pc.m);
    assert [pc.m][1..] == [];
  }

  lemma ConnectedHasHandle(w0: World, w: World)
    requires Delivery.Inv(w0) && Leads(w0, w)
    ensures w.prod.conn.connected ==> w.prod.conn.handle.Some?
  {
    LeadsInv(w0, w);
  }

  lemma EndWakes(s: P.Producer, logs: Logs, pc: P.Pc, wake: P.Wake, s1: P.Producer)
    requires s.tasks == map[0 := pc] && P.Adding(pc) && !pc.Count?
    requires (wake.Failed? && s1 == s) || (pc.CommitAdd? && wake.Done? && s1 == P.Commit(s).(acked := s.acked + {pc.m}))
    ensures P.Step(s, logs, P.Resume(0, wake)) == Some(P.AfterAdd(s1, 0, pc.m))
  {
  }

  lemma AfterAddGoesOn(s: P.Producer, m: Message)
    requires s.tasks.Keys == {0} && (s.conn.connected ==> s.conn.handle.Some?)
    ensures var s' := P.AfterAdd(s, 0, m);
      && s'.conn == s.conn && s'.db == s.db && s'.acked == s.acked
      && (if s.conn.connected then s'.tasks == s.tasks[0 := P.Send(s.conn.handle, m, [])] && s'.tasks.Keys == {0} && m in s'.requested
          else s'.tasks == map[])
  {
    if !s.conn.connected {
      assert s.tasks - {0} == map[];
    }
  }

  /** add, statement by statement, up to the point where send_message looks at the connection. */
  lemma AddRuns(w0: World, w: World, st: F.State, m: Message, now: real, fault: M.AddFault, b: bool) returns (w': World)
    requires Delivery.Inv(w0) && Like(w0, w, st) && NoTasks(w) && m.producer == w.me && Fresh(w, m) && now > w.prod.clock
    ensures var rows := M.AddTo(st.rows, m, now, w.prod.capacity, fault).0;
      Like(w0, w', st.(rows := rows, connected := b)) && GoesOn(w', [m]) && w'.me == w.me
    ensures var full := |Pending(st.rows)| >= w.prod.capacity;
      var accepted := !fault.InsertFails? && !fault.CommitFails? && !(fault.DeleteFails? && full);
      w'.prod.acked == w.prod.acked + if accepted then {m} else {}
  {
    NotHanded(w0, w, m);
    AddByCases(st.rows, m, now, w.prod.capacity, fault);
    var full := (if fault.CountFails? then 0 else |Pending(st.rows)|) >= w.prod.capacity;
    var w1 := CountRuns(w0, w, st, m, fault, if full then P.Evict(m) else P.Insert(m));
    if full {
      w' := EvictRuns(w0, w1, st, m, now, fault, b);
    } else {
      w' := InsertRuns(w0, w1, st, m, now, fault, b);
    }
  }

  /** The start of add and its COUNT, whose failure counts as an empty queue. */
  lemma CountRuns(w0: World, w: World, st: F.State, m: Message, fault: M.AddFault, next: P.Pc) returns (w': World)
    requires Like(w0, w, st) && NoTasks(w) && m.producer == w.me && Fresh(w, m) && m !in w.prod.handed
    requires w.prod.handed <= w.known
    requires next == if (if fault.CountFails? then 0 else |Pending(st.rows)|) >= w.prod.capacity then P.Evict(m) else P.Insert(m)
    ensures Like(w0, w', st) && AddsAt(w', next) && w'.me == w.me
    ensures w'.prod.clock == w.prod.clock && w'.prod.acked == w.prod.acked
  {
    var w1 := AddStarts(w0, w, st, m);
    w' := AddStep(w0, w1, st, P.Count(m), if fault.CountFails? then P.Failed else P.Done, next, w1.prod.db, w1.prod.clock);
  }

  lemma NotHanded(w0: World, w: World, m: Message)
    requires Delivery.Inv(w0) && Leads(w0, w) && Fresh(w, m)
    ensures m !in w.prod.handed && w.prod.handed <= w.known
  {
    LeadsInv(w0, w);
  }

  /** The add as the two ways it can take after its COUNT. */
  lemma AddByCases(rows: seq<Row>, m: Message, now: real, capacity: nat, fault: M.AddFault)
    ensures var n := if fault.CountFails? then 0 else |Pending(rows)|;
      var room := DeleteOldestPending(rows);
      M.AddTo(rows, m, now, capacity, fault).0 ==
        if n >= capacity then (if fault.DeleteFails? then rows else if fault.InsertFails? then room else InsertOrIgnore(room, m, now))
        else (if fault.InsertFails? then rows else InsertOrIgnore(rows, m, now))
  {
  }

  lemma EvictRuns(w0: World, w: World, st: F.State, m: Message, now: real, fault: M.AddFault, b: bool) returns (w': World)
    requires Delivery.Inv(w0) && Like(w0, w, st) && AddsAt(w, P.Evict(m)) && m.producer == w.me && now > w.prod.clock
    ensures var room := DeleteOldestPending(st.rows);
      var rows := if fault.DeleteFails? then st.rows else if fault.InsertFails? then room else InsertOrIgnore(room, m, now);
      Like(w0, w', st.(rows := rows, connected := b)) && GoesOn(w', [m]) && w'.me == w.me
    ensures w'.prod.acked == w.prod.acked + if fault.DeleteFails? || fault.InsertFails? || fault.CommitFails? then {} else {m}
  {
    if fault.DeleteFails? {
      w' := AddEnds(w0, w, st, P.Evict(m), P.Failed, b);
    } else {
      var w1 := AddStep(w0, w, st, P.Evict(m), P.Done, P.Insert(m), EvictOldest(w.prod.db), w.prod.clock);
      w' := InsertRuns(w0, w1, st.(rows := w1.prod.db.rows), m, now, fault, b);
    }
  }

  lemma InsertRuns(w0: World, w: World, st: F.State, m: Message, now: real, fault: M.AddFault, b: bool) returns (w': World)
    requires Delivery.Inv(w0) && Like(w0, w, st) && AddsAt(w, P.Insert(m)) && m.producer == w.me && now > w.prod.clock
    ensures var rows := if fault.InsertFails? then st.rows else InsertOrIgnore(st.rows, m, now);
      Like(w0, w', st.(rows := rows, connected := b)) && GoesOn(w', [m]) && w'.me == w.me
    ensures w'.prod.acked == w.prod.acked + if fault.InsertFails? || fault.CommitFails? then {} else {m}
  {
    if fault.InsertFails? {
      w' := AddEnds(w0, w, st, P.Insert(m), P.Failed, b);
    } else {
      var db := BufferHistory.Insert(w.prod.db, m, now);
      var w1 := AddStep(w0, w, st, P.Insert(m), P.DoneAt(now), P.CommitAdd(m), db, now);
      w' := AddEnds(w0, w1, st.(rows := db.rows), P.CommitAdd(m), if fault.CommitFails? then P.Failed else P.Done, b);
    }
  }

  /** From any reachable world in which no task of the producer is under way, what SendMessage does to
      the table and to the log, with any of its statements failing and whatever Kafka and the other
      tasks do, is what some run of the pipeline does; in it the message is accepted if and only if Add
      returns True. */
  lemma SendMessageIsARun(w: World, m: Message, now: real, fault: M.AddFault, env: F.Env, tick: nat) returns (w': World)
    requires Reachable(w) && NoTasks(w) && |w.logs| > 0
    requires m.producer == w.me && Fresh(w, m) && now > w.prod.clock
    ensures var st' := K.Handed(F.State(w.prod.db.rows, [], w.prod.conn.connected, tick), m, now, w.prod.capacity, fault, env).0;
      && Reachable(w') && NoTasks(w')
      && w'.prod.db.rows == st'.rows
      && w'.logs == w.logs[Partition(w, w.me) := w.logs[Partition(w, w.me)] + Goods(st'.log)]
    ensures var full := |Pending(w.prod.db.rows)| >= w.prod.capacity;
      m in w'.prod.acked <==> !fault.InsertFails? && !fault.CommitFails? && !(fault.DeleteFails? && full)
    ensures m in w'.prod.acked <==> M.AddTo(w.prod.db.rows, m, now, w.prod.capacity, fault).1
  {
    ReachableInv(w);
    NotYetAccepted(w, m);
    var st := F.State(w.prod.db.rows, [], w.prod.conn.connected, tick);
    LikeSelf(w, st);
    var b := env.link(tick);
    var w1 := AddRuns(w, w, st, m, now, fault, b);
    var st1 := F.Yield(st.(rows := M.AddTo(st.rows, m, now, w.prod.capacity, fault).0), env);
    assert [m][1..] == [];
    if b {
      w' := SendRuns(w, w1, st1, m, [], env);
    } else {
      w' := w1;
    }
    ReachableLeads(w, w');
  }

  lemma NotYetAccepted(w: World, m: Message)
    requires Delivery.Inv(w) && Fresh(w, m)
    ensures m !in w.prod.acked
  {
    RowsAreInserted(w.prod.db, w.prod.clock);
    assert m in w.prod.acked ==> m in w.prod.handed;
  }

  lemma LikeSelf(w: World, st: F.State)
    requires |w.logs| > 0 && st.rows == w.prod.db.rows && st.log == [] && st.connected == w.prod.conn.connected
    ensures Like(w, w, st)
  {
    assert Run(w, []) == Some(w);
    var p := Partition(w, w.me);
    assert w.logs[p] + Goods([]) == w.logs[p];
    assert w.logs[p := w.logs[p]] == w.logs;
  }

  lemma ReachableLeads(w: World, w': World)
    requires Reachable(w) && Leads(w, w')
    ensures Reachable(w')
  {
    var run :| Run(w, run) == Some(w');
    ReachableRun(w, run, w');
  }
}
