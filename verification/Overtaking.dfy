/** A run in which the order hypothesis of the arbiter's soundness fails.  The first message is
    accepted while Kafka is down; when the connection is back, the second is sent directly, before
    the flush loop gets to the first; the consumer reads the second, and its watermark passes a
    number that is in the log but still unread. */
module Overtaking {
  import opened Messages
  import opened BufferTable
  import opened BufferHistory
  import opened KafkaLog
  import opened Reconciler
  import opened ReconcilerSoundness
  import opened Delivery
  import P = ProducerSystem
  import C = ConsumerSystem

  const M1 := Message("1", 1, "p", "", "")
  const M2 := Message("2", 2, "p", "", "")
  const R1 := Row(M1, 1.0, false)
  const R2 := Row(M2, 2.0, false)
  const UP := P.Conn(true, true, Some(0))

  const DB1 := Db([R1], {M1}, {}, {})
  const DB2 := Db([R1, R2], {M1, M2}, {}, {})

  ghost function Prod(db: Db, durable: Db, conn: P.Conn, tasks: map<nat, P.Pc>, clock: real,
                      handed: set<Message>, acked: set<Message>, requested: set<Message>): P.Producer {
    P.Producer(10, db, durable, conn, tasks, clock, handed, acked, requested)
  }

  ghost function Cons(rows: map<string, Message>, k: nat, session: Option<C.Session>, served: set<(string, int)>, cached: map<string, int>): C.Consumer {
    C.Consumer(C.Store(rows, [k], {}), C.Store(map[], [0], {}), session, [0], {}, cached, served, 0)
  }

  ghost function At(route: string -> nat, log: seq<Record>, prod: P.Producer, cons: C.Consumer): World {
    World("p", route, [log], prod.handed, prod, cons)
  }

  ghost function Idle(): C.Consumer { Cons(map[], 0, None, {}, map[]) }

  lemma OneTask(pc: P.Pc, pc': P.Pc)
    ensures map[0 := pc] - {0} == map[] && map[1 := pc] - {1} == map[]
    ensures map[][0 := pc] == map[0 := pc] && map[][1 := pc] == map[1 := pc]
    ensures map[0 := pc][0 := pc'] == map[0 := pc'] && map[1 := pc][1 := pc'] == map[1 := pc']
  {
  }

  lemma Sets(m: Message)
    ensures {} + {m} == {m} && {m} + {m} == {m}
  {
  }

  ghost function Waiting(route: string -> nat, conn: P.Conn): World {
    At(route, [], Prod(DB1, DB1, conn, map[], 1.0, {M1}, {M1}, {}), Idle())
  }

  ghost function Adding(route: string -> nat, db: Db, clock: real, pc: P.Pc): World {
    At(route, [], Prod(db, DB1, UP, map[0 := pc], clock, {M1, M2}, {M1}, {}), Idle())
  }

  ghost function Sending(route: string -> nat, log: seq<Record>, tasks: map<nat, P.Pc>, requested: set<Message>): World {
    At(route, log, Prod(DB2, DB2, UP, tasks, 2.0, {M1, M2}, {M1, M2}, requested), Idle())
  }

  const DIRECT := P.Send(Some(0), M2, [])
  const FLUSH := P.Send(Some(0), M1, [M2])

  /** The first message is accepted without a connection. */
  lemma FirstWaits(route: string -> nat)
    ensures Reachable(Waiting(route, P.DOWN))
  {
    Sets(M1);
    OneTask(P.Count(M1), P.Insert(M1));
    var w0 := At(route, [], Prod(EMPTY, EMPTY, P.DOWN, map[], 0.0, {}, {}, {}), Idle());
    assert C.Zeros(1) == [0];
    assert Init(w0) && Run(w0, []) == Some(w0);
    var w1 := At(route, [], Prod(EMPTY, EMPTY, P.DOWN, map[0 := P.Count(M1)], 0.0, {M1}, {}, {}), Idle());
    ReachableStep(w0, Produce(P.StartAdd(0, M1)), w1);
    var w2 := At(route, [], Prod(EMPTY, EMPTY, P.DOWN, map[0 := P.Insert(M1)], 0.0, {M1}, {}, {}), Idle());
    ReachableStep(w1, Produce(P.Resume(0, P.Done)), w2);
    FirstInserted(route, w2);
  }

  lemma FirstInserted(route: string -> nat, w: World)
    requires Reachable(w) && w == At(route, [], Prod(EMPTY, EMPTY, P.DOWN, map[0 := P.Insert(M1)], 0.0, {M1}, {}, {}), Idle())
    ensures Reachable(Waiting(route, P.DOWN))
  {
    Sets(M1);
    OneTask(P.Insert(M1), P.CommitAdd(M1));
    OneTask(P.CommitAdd(M1), P.Fetch);
    var w1 := At(route, [], Prod(DB1, EMPTY, P.DOWN, map[0 := P.CommitAdd(M1)], 1.0, {M1}, {}, {}), Idle());
    assert [] + [R1] == [R1];
    ReachableStep(w, Produce(P.Resume(0, P.DoneAt(1.0))), w1);
    ReachableStep(w1, Produce(P.Resume(0, P.Done)), Waiting(route, P.DOWN));
  }

  /** The connection comes up. */
  lemma Connects(route: string -> nat)
    ensures Reachable(Waiting(route, UP))
  {
    FirstWaits(route);
    OneTask(P.Creating, P.Fetch);
    var w := At(route, [], Prod(DB1, DB1, P.DOWN, map[1 := P.Creating], 1.0, {M1}, {M1}, {}), Idle());
    ReachableStep(Waiting(route, P.DOWN), Produce(P.StartClose(1, true)), w);
    ReachableStep(w, Produce(P.Resume(1, P.Opened(0))), Waiting(route, UP));
  }

  /** The second message is inserted behind the first. */
  lemma SecondInserted(route: string -> nat)
    ensures Reachable(Adding(route, DB1, 1.0, P.Insert(M2)))
  {
    Connects(route);
    OneTask(P.Count(M2), P.Insert(M2));
    assert {M1} + {M2} == {M1, M2};
    ReachableStep(Waiting(route, UP), Produce(P.StartAdd(0, M2)), Adding(route, DB1, 1.0, P.Count(M2)));
    ReachableStep(Adding(route, DB1, 1.0, P.Count(M2)), Produce(P.Resume(0, P.Done)), Adding(route, DB1, 1.0, P.Insert(M2)));
  }

  lemma SecondCommits(route: string -> nat)
    ensures Reachable(Adding(route, DB2, 2.0, P.CommitAdd(M2)))
  {
    SecondInserted(route);
    OneTask(P.Insert(M2), P.CommitAdd(M2));
    assert {M1} + {M2} == {M1, M2};
    assert [R1] + [R2] == [R1, R2];
    assert BufferHistory.Insert(DB1, M2, 2.0) == DB2;
    ReachableStep(Adding(route, DB1, 1.0, P.Insert(M2)), Produce(P.Resume(0, P.DoneAt(2.0))), Adding(route, DB2, 2.0, P.CommitAdd(M2)));
  }

  lemma OneLog(log: seq<Record>, m: Message)
    ensures KafkaLog.Append([log], 0, Good(m)) == [log + [Good(m)]]
    ensures [] + [Good(m)] == [Good(m)]
  {
  }

  /** It is sent directly, while the first still waits. */
  lemma SecondOvertakes(route: string -> nat)
    requires route("p") == 0
    ensures Reachable(Sending(route, [Good(M2)], map[0 := DIRECT], {M2}))
  {
    SecondCommits(route);
    OneTask(P.CommitAdd(M2), DIRECT);
    Sets(M2);
    assert {M1} + {M2} == {M1, M2};
    ReachableStep(Adding(route, DB2, 2.0, P.CommitAdd(M2)), Produce(P.Resume(0, P.Done)), Sending(route, [], map[0 := DIRECT], {M2}));
    OneLog([], M2);
    ReachableStep(Sending(route, [], map[0 := DIRECT], {M2}), Append(M2), Sending(route, [Good(M2)], map[0 := DIRECT], {M2}));
  }

  const TASKS := map[0 := DIRECT, 1 := FLUSH]

  const FETCHING := map[0 := DIRECT, 1 := P.Fetch]

  lemma FlushWakes(route: string -> nat)
    requires route("p") == 0
    ensures Reachable(Sending(route, [Good(M2)], FETCHING, {M2}))
  {
    SecondOvertakes(route);
    var w := Sending(route, [Good(M2)], map[0 := DIRECT], {M2});
    var w' := Sending(route, [Good(M2)], FETCHING, {M2});
    assert map[0 := DIRECT][1 := P.Fetch] == FETCHING;
    ProducerSteps(w, P.StartFlush(1), w'.prod);
    ReachableStep(w, Produce(P.StartFlush(1)), w');
  }

  lemma FlushFetches(w: World, w': World)
    requires Reachable(w) && w.prod.tasks == FETCHING && w.prod.db == DB2 && w.prod.conn == UP && w.prod.requested == {M2}
    requires w' == w.(prod := w.prod.(tasks := TASKS, requested := {M2, M1}))
    ensures Reachable(w')
  {
    BothPending();
    assert {M2} + {M1} == {M2, M1} && [M1, M2][1..] == [M2] && FETCHING[1 := FLUSH] == TASKS;
    TaskSteps(w, 1, P.Done, P.BeginSend(w.prod, 1, M1, [M2]));
    ReachableStep(w, Produce(P.Resume(1, P.Done)), w');
  }

  /** The flush loop sends the first one afterwards. */
  lemma FlushStarts(route: string -> nat)
    requires route("p") == 0
    ensures Reachable(Sending(route, [Good(M2)], TASKS, {M2, M1}))
  {
    FlushWakes(route);
    FlushFetches(Sending(route, [Good(M2)], FETCHING, {M2}), Sending(route, [Good(M2)], TASKS, {M2, M1}));
  }

  lemma FlushFollows(route: string -> nat)
    requires route("p") == 0
    ensures Reachable(Sending(route, [Good(M2), Good(M1)], TASKS, {M2, M1}))
  {
    FlushStarts(route);
    OneLog([Good(M2)], M1);
    assert [Good(M2)] + [Good(M1)] == [Good(M2), Good(M1)];
    ReachableStep(Sending(route, [Good(M2)], TASKS, {M2, M1}), Append(M1), Sending(route, [Good(M2), Good(M1)], TASKS, {M2, M1}));
  }

  lemma BothPending()
    ensures P.Batch([R1, R2]) == [M1, M2]
  {
    assert [R1, R2][1..] == [R2] && [R2][1..] == [];
    assert Pending([R2]) == [R2] + Pending([]);
    assert Pending([R1, R2]) == [R1] + [R2];
  }

  ghost function Reading(route: string -> nat, cons: C.Consumer): World {
    Sending(route, [Good(M2), Good(M1)], TASKS, {M2, M1}).(cons := cons)
  }

  /** The consumer reads the second message, and serves it as its watermark. */
  lemma ConsumerReadsOne(route: string -> nat)
    requires route("p") == 0
    ensures Reachable(Reading(route, Cons(map["2" := M2], 1, Some(C.Session([0], [1], C.Committing(0))), {("p", 2)}, map["p" := 2])))
  {
    FlushFollows(route);
    var c1 := Cons(map[], 0, Some(C.Session([0], [0], C.Polling)), {}, map[]);
    ReachableStep(Reading(route, Idle()), Consume(C.Connect), Reading(route, c1));
    var c2 := Cons(map[], 0, Some(C.Session([0], [1], C.Polling)), {}, map[]);
    ReachableStep(Reading(route, c1), Consume(C.Poll([1])), Reading(route, c2));
    var c3 := Cons(map[], 0, Some(C.Session([0], [1], C.Inserting(0))), {}, map[]);
    ReachableStep(Reading(route, c2), Consume(C.Handle(0)), Reading(route, c3));
    OneSaved(route, c3);
  }

  lemma OneSaved(route: string -> nat, c3: C.Consumer)
    requires c3 == Cons(map[], 0, Some(C.Session([0], [1], C.Inserting(0))), {}, map[]) && Reachable(Reading(route, c3))
    ensures Reachable(Reading(route, Cons(map["2" := M2], 1, Some(C.Session([0], [1], C.Committing(0))), {("p", 2)}, map["p" := 2])))
  {
    var c4 := Cons(map["2" := M2], 1, Some(C.Session([0], [1], C.Committing(0))), {}, map[]);
    assert map[]["2" := M2] == map["2" := M2];
    assert [0][0 := 1] == [1];
    ReachableStep(Reading(route, c3), Consume(C.Saved), Reading(route, c4));
    WatermarkServed(route, c4);
  }

  lemma WatermarkServed(route: string -> nat, c4: C.Consumer)
    requires c4 == Cons(map["2" := M2], 1, Some(C.Session([0], [1], C.Committing(0))), {}, map[]) && Reachable(Reading(route, c4))
    ensures Reachable(Reading(route, c4.(cached := map["p" := 2], served := {("p", 2)})))
  {
    LastIsTwo(c4);
    var w, c5 := Reading(route, c4), c4.(cached := map["p" := 2], served := {("p", 2)});
    ConsumerSteps(w, C.RefreshStats(map["p" := 2]), c5);
    ReachableStep(w, Consume(C.RefreshStats(map["p" := 2])), Reading(route, c5));
  }

  lemma LastIsTwo(c: C.Consumer)
    requires c.store.rows == map["2" := M2] && c.served == {}
    ensures forall logs :: C.Step(c, logs, C.RefreshStats(map["p" := 2])) == Some(c.(cached := map["p" := 2], served := {("p", 2)}))
  {
    var last := map["p" := 2];
    assert C.HasRow(c.store.rows, "p", 2) by { assert "2" in c.store.rows; }
    assert C.IsLastSequence(c.store.rows, last);
    assert {} + (set k | k in last :: (k, last[k])) == {("p", 2)};
  }

  ghost function Misread(): World {
    Reading(_ => 0, Cons(map["2" := M2], 1, Some(C.Session([0], [1], C.Committing(0))), {("p", 2)}, map["p" := 2]))
  }

  /** So a reachable world, with nothing pruned, no range refused and a positive served watermark,
      reports a number as missing that is in the log. */
  lemma OvertakingBreaksSoundness(url: string, threshold: real) returns (w: World)
    ensures Reachable(w) && w.cons.store.pruned == {} && ("p", 2) in w.cons.served
    ensures Eligible({1, 2}, Some(2)) == {1, 2} && Answered({1, 2})
    ensures var a := AuditNow(w, url, "p", {1, 2}, Some(2), true, threshold);
      a.Some? && 1 in a.value.missing && InLog(w, "p", 1)
  {
    w := Misread();
    ConsumerReadsOne(w.route);
    UnreadButLogged(w);
    ReportsOne(w, url, threshold);
  }

  lemma UnreadButLogged(w: World)
    requires w == Misread()
    ensures InLog(w, "p", 1) && 1 !in Received(w, "p")
  {
    assert KafkaLog.At(w.logs, 0, 1, M1);
    assert M1.producer == "p" && M1.sequence == 1;
  }

  lemma ReportsOne(w: World, url: string, threshold: real)
    requires 1 !in Received(w, "p")
    ensures Eligible({1, 2}, Some(2)) == {1, 2} && Answered({1, 2})
    ensures var a := AuditNow(w, url, "p", {1, 2}, Some(2), true, threshold);
      a.Some? && 1 in a.value.missing
  {
    assert Eligible({1, 2}, Some(2)) == {1, 2};
    ExactUnlessFailed(url, "p", {1, 2}, Some(2), Received(w, "p"), true, threshold);
  }

  /** The same world, when the consumer crashes before its commit, is one in which a watermark that was
      served is rolled back, and an arbiter that still holds it reports a logged number. */
  lemma RollbackHappens(url: string, threshold: real) returns (w: World)
    ensures Reachable(w) && ("p", 2) in w.cons.served && !C.HasRow(w.cons.durable.rows, "p", 2)
    ensures var w' := Step(w, Consume(C.Crash)).value;
      var a := AuditNow(w', url, "p", {2}, Some(2), true, threshold);
      a.Some? && 2 in a.value.missing && InLog(w', "p", 2)
  {
    w := Misread();
    ConsumerReadsOne(w.route);
    RolledBackWatermark(w, url, "p", 2, threshold);
  }
}
