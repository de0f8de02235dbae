/** The buffer bound.  There is one produce loop, so adds follow one another; sends, marks,
    flushes and cleanups still interleave with an add at each of its awaits.  The bound fails
    exactly if a COUNT(*) fails on a full queue. */
module ProducerCapacity {
  import opened Messages
  import opened BufferTable
  import opened BufferHistory
  import opened KafkaLog
  import opened Delivery
  import P = ProducerSystem
  import C = ConsumerSystem

  ghost predicate NoAdd(s: P.Producer) {
    forall t :: t in s.tasks ==> !P.Adding(s.tasks[t])
  }

  /** An add starts when no other add is under way. */
  ghost predicate Serial(w: World, a: Action) {
    a.Produce? && a.p.StartAdd? ==> NoAdd(w.prod)
  }

  /** COUNT(*) fails on a full queue: add takes the count for 0 and does not evict. */
  ghost predicate BlindCount(s: P.Producer, a: P.Action) {
    && a.Resume? && a.wake.Failed? && a.t in s.tasks && s.tasks[a.t].Count?
    && |Pending(s.db.rows)| >= s.capacity
  }

  ghost predicate Blind(w: World, a: Action) {
    a.Produce? && BlindCount(w.prod, a.p)
  }

  ghost predicate Careful(w: World, a: Action) {
    Serial(w, a) && !Blind(w, a)
  }

  /** Past the capacity check, an add has made room for its row, and nobody else takes it. */
  ghost predicate Bounded(s: P.Producer) {
    && |Pending(s.db.rows)| <= s.capacity
    && |Pending(s.durable.rows)| <= s.capacity
    && RoomForInserts(s)
    && OneAdder(s)
  }

  ghost predicate RoomForInserts(s: P.Producer) {
    forall t :: t in s.tasks && s.tasks[t].Insert? ==> |Pending(s.db.rows)| < s.capacity
  }

  ghost predicate OneAdder(s: P.Producer) {
    forall t, u :: t in s.tasks && u in s.tasks && P.Adding(s.tasks[t]) && P.Adding(s.tasks[u]) ==> t == u
  }

  /** Only an INSERT lengthens the queue, and then by one. */
  lemma QueueLength(s: P.Producer, logs: Logs, t: nat, wake: P.Wake)
    requires Chronological(s.db.rows) && t in s.tasks && P.Woken(s, logs, t, s.tasks[t], wake).Some?
    ensures var s' := P.Woken(s, logs, t, s.tasks[t], wake).value;
      && |Pending(s'.db.rows)| <= |Pending(s.db.rows)| + (if s.tasks[t].Insert? && wake.DoneAt? then 1 else 0)
      && (s.tasks[t].Evict? && wake.Done? && Pending(s.db.rows) != [] ==> |Pending(s'.db.rows)| < |Pending(s.db.rows)|)
  {
    if wake.Failed? {
      P.SameTable(s, logs, t, wake);
    } else {
      match s.tasks[t]
      case Evict(_) =>
      case Insert(m) => PendingAppend(s.db.rows, Row(m, wake.now, false));
      case Mark(m, _) => MarkShrinksPending(s.db.rows, m.id);
      case CleanSent(cutoff) => CleanKeepsOrder(s.db.rows, cutoff);
      case _ => P.SameTable(s, logs, t, wake);
    }
  }

  /** A commit takes over what is visible, and only then. */
  lemma CommitOrNot(s: P.Producer, logs: Logs, t: nat, wake: P.Wake)
    requires t in s.tasks && P.Woken(s, logs, t, s.tasks[t], wake).Some?
    ensures var s' := P.Woken(s, logs, t, s.tasks[t], wake).value;
      s'.durable == s.durable || (s'.durable == s.db && s'.db == s.db)
  {
  }

  /** Resuming a task leaves the other tasks alone, and an add goes forward only. */
  lemma Adders(s: P.Producer, logs: Logs, t: nat, wake: P.Wake)
    requires t in s.tasks && P.Woken(s, logs, t, s.tasks[t], wake).Some?
    ensures var s' := P.Woken(s, logs, t, s.tasks[t], wake).value;
      && s'.capacity == s.capacity
      && s'.tasks.Keys <= s.tasks.Keys
      && (forall u :: u in s'.tasks && u != t ==> s'.tasks[u] == s.tasks[u])
      && (t in s'.tasks && P.Adding(s'.tasks[t]) ==> P.Adding(s.tasks[t]))
  {
  }

  /** The INSERT is reached with room to spare, or by way of the eviction. */
  lemma InsertHasRoom(s: P.Producer, logs: Logs, t: nat, wake: P.Wake)
    requires t in s.tasks && P.Woken(s, logs, t, s.tasks[t], wake).Some?
    requires !BlindCount(s, P.Resume(t, wake))
    ensures var s' := P.Woken(s, logs, t, s.tasks[t], wake).value;
      && (t in s'.tasks && s'.tasks[t].Insert? ==>
           (s.tasks[t].Count? && |Pending(s.db.rows)| < s.capacity) || (s.tasks[t].Evict? && wake.Done?))
  {
  }

  lemma StepBounded(s: P.Producer, logs: Logs, a: P.Action)
    requires Chronological(s.db.rows) && Bounded(s) && s.capacity >= 1
    requires P.Step(s, logs, a).Some?
    requires (a.StartAdd? ==> NoAdd(s)) && !BlindCount(s, a)
    ensures Bounded(P.Step(s, logs, a).value) && P.Step(s, logs, a).value.capacity == s.capacity
  {
    if a.Resume? {
      ResumeBounded(s, logs, a.t, a.wake);
    } else {
      OthersBounded(s, logs, a);
    }
  }

  /** Starting, cancelling and crashing never lengthen the queue; only StartAdd brings an adder. */
  lemma OthersBounded(s: P.Producer, logs: Logs, a: P.Action)
    requires Bounded(s) && P.Step(s, logs, a).Some? && !a.Resume?
    requires a.StartAdd? ==> NoAdd(s)
    ensures Bounded(P.Step(s, logs, a).value) && P.Step(s, logs, a).value.capacity == s.capacity
  {
    var s' := P.Step(s, logs, a).value;
    assert forall t :: t in s'.tasks && P.Adding(s'.tasks[t]) ==>
      (t in s.tasks && s'.tasks[t] == s.tasks[t]) || (a.StartAdd? && t == a.t && s'.tasks[t].Count?);
  }

  lemma ResumeBounded(s: P.Producer, logs: Logs, t: nat, wake: P.Wake)
    requires Chronological(s.db.rows) && Bounded(s) && s.capacity >= 1
    requires t in s.tasks && P.Woken(s, logs, t, s.tasks[t], wake).Some? && !BlindCount(s, P.Resume(t, wake))
    ensures Bounded(P.Woken(s, logs, t, s.tasks[t], wake).value)
    ensures P.Woken(s, logs, t, s.tasks[t], wake).value.capacity == s.capacity
  {
    QueueLength(s, logs, t, wake);
    CommitOrNot(s, logs, t, wake);
    Adders(s, logs, t, wake);
    InsertHasRoom(s, logs, t, wake);
  }

  lemma {:induction false} RunBounded(w: World, run: seq<Action>)
    requires Delivery.Inv(w) && Bounded(w.prod) && w.prod.capacity >= 1
    requires Run(w, run).Some? && Obeys(w, run, Careful)
    ensures Bounded(Run(w, run).value.prod) && Run(w, run).value.prod.capacity == w.prod.capacity
    decreases run
  {
    if run != [] {
      StepInv(w, run[0]);
      WorldBounded(w, run[0]);
      RunBounded(Step(w, run[0]).value, run[1..]);
    }
  }

  lemma WorldBounded(w: World, a: Action)
    requires Delivery.Inv(w) && Bounded(w.prod) && w.prod.capacity >= 1 && Step(w, a).Some? && Careful(w, a)
    ensures Bounded(Step(w, a).value.prod) && Step(w, a).value.prod.capacity == w.prod.capacity
  {
    if a.Produce? {
      StepBounded(w.prod, w.logs, a.p);
    }
  }

  lemma CarefulIsBounded(w: World)
    requires ReachableUnder(Careful, w) && w.prod.capacity >= 1
    ensures Delivery.Inv(w) && Bounded(w.prod)
  {
    UnderIsReachable(Careful, w);
    var w0 :| Init(w0) && LeadsUnder(Careful, w0, w);
    var run :| Run(w0, run) == Some(w) && Obeys(w0, run, Careful);
    InitInv(w0);
    SameCapacity(w0, run);
    RunBounded(w0, run);
  }

  lemma {:induction false} SameCapacity(w: World, run: seq<Action>)
    requires Run(w, run).Some?
    ensures Run(w, run).value.prod.capacity == w.prod.capacity
    decreases run
  {
    if run != [] {
      var next := Step(w, run[0]).value;
      if run[0].Produce? && run[0].p.Resume? {
        Adders(w.prod, w.logs, run[0].p.t, run[0].p.wake);
      }
      SameCapacity(next, run[1..]);
    }
  }

  /** Neither the live table nor what a crash would leave has more pending rows than BUFFER_MAX_SIZE. */
  ghost predicate Within(w: World) {
    && |Pending(w.prod.db.rows)| <= w.prod.capacity
    && |Pending(w.prod.durable.rows)| <= w.prod.capacity
  }

  /** The number of pending messages never exceeds BUFFER_MAX_SIZE, wherever an add, a flush or a
      cleanup happens to be suspended, as long as no COUNT fails on a full queue. */
  lemma NeverOverfull(w: World)
    requires ReachableUnder(Careful, w) && w.prod.capacity >= 1
    ensures Within(w)
  {
    CarefulIsBounded(w);
  }

  /** Whatever happens from here on, short of such a failure, the bound holds. */
  ghost predicate StaysWithin(w: World) {
    forall run :: Run(w, run).Some? && Obeys(w, run, Careful) ==> Within(Run(w, run).value)
  }

  /** The condition is exact.  After a run in which no COUNT failed on a full queue, a next step keeps
      the bound for good (in every continuation without such a failure) if and only if it is not
      such a failure itself. */
  lemma BoundIffCountAnswers(w: World, a: Action, w': World)
    requires ReachableUnder(Careful, w) && w.prod.capacity >= 1
    requires Step(w, a) == Some(w') && Serial(w, a)
    ensures StaysWithin(w') <==> !Blind(w, a)
  {
    CarefulIsBounded(w);
    if Blind(w, a) {
      var run := OneTooMany(w, a, w');
    } else {
      CarefulStep(w, a);
    }
  }

  lemma CarefulStep(w: World, a: Action)
    requires Delivery.Inv(w) && Bounded(w.prod) && w.prod.capacity >= 1 && Step(w, a).Some? && Careful(w, a)
    ensures StaysWithin(Step(w, a).value)
  {
    var w' := Step(w, a).value;
    StepInv(w, a);
    WorldBounded(w, a);
    forall run | Run(w', run).Some? && Obeys(w', run, Careful) ensures Within(Run(w', run).value) {
      RunBounded(w', run);
    }
  }

  lemma RunOfOne(w: World, a: Action, w': World)
    requires Step(w, a) == Some(w')
    ensures Run(w, [a]) == Some(w')
    ensures Careful(w, a) ==> Obeys(w, [a], Careful)
  {
    assert [a][1..] == [];
    assert Run(w', []) == Some(w');
  }

  /** The INSERT that follows such a failure. */
  lemma OneTooMany(w: World, a: Action, w': World) returns (run: seq<Action>)
    requires Delivery.Inv(w) && Bounded(w.prod) && w.prod.capacity >= 1 && Step(w, a) == Some(w') && Blind(w, a)
    ensures Run(w', run).Some? && Obeys(w', run, Careful)
    ensures |Pending(Run(w', run).value.prod.db.rows)| == w.prod.capacity + 1 && !StaysWithin(w')
  {
    StepInv(w, a);
    var now := w'.prod.clock + 1.0;
    var insert := P.Resume(a.p.t, P.DoneAt(now));
    var s := InsertGrowsQueue(w'.prod, w'.logs, a.p.t, now);
    RunOfOne(w', Produce(insert), w'.(prod := s));
    run := [Produce(insert)];
    assert !Within(Run(w', run).value);
  }

  lemma InsertGrowsQueue(s: P.Producer, logs: Logs, t: nat, now: real) returns (s': P.Producer)
    requires P.Inv(s, logs) && t in s.tasks && s.tasks[t].Insert? && now > s.clock
    ensures P.Step(s, logs, P.Resume(t, P.DoneAt(now))) == Some(s')
    ensures |Pending(s'.db.rows)| == |Pending(s.db.rows)| + 1
    ensures s' == P.Move(s, t, P.CommitAdd(s.tasks[t].m)).(db := s'.db, clock := now)
  {
    var m := s.tasks[t].m;
    assert P.TaskInv(s.tasks[t], s, logs);
    InsertKeepsInv(s.db, s.clock, m, now);
    s' := P.Move(s.(db := BufferHistory.Insert(s.db, m, now), clock := now), t, P.CommitAdd(m));
  }

  // ---- how bad it can get --------------------------------------------------------------

  function Numbered(n: nat): Message {
    Message(seq(n, _ => 'x'), n, "p", "", "")
  }

  /** n messages wait, all of them committed, and nothing is under way. */
  ghost predicate Filled(w: World, capacity: nat, n: nat) {
    && ReachableUnder(Serial, w) && w.me == "p" && w.prod.capacity == capacity
    && w.prod.tasks == map[] && w.prod.conn == P.DOWN && w.prod.durable == w.prod.db
    && |Pending(w.prod.db.rows)| == n
    && forall m :: m in w.known ==> |m.id| < n
  }

  /** An add whose COUNT fails. */
  lemma FillOne(w: World, capacity: nat, n: nat) returns (w': World)
    requires Filled(w, capacity, n) && capacity >= 1
    ensures Filled(w', capacity, n + 1)
  {
    var m := Numbered(n);
    var w1 := ToInsert(w, m);
    w' := FromInsert(w1, m);
  }

  lemma FromInsert(w: World, m: Message) returns (w': World)
    requires ReachableUnder(Serial, w) && w.prod.tasks == map[0 := P.Insert(m)] && w.prod.conn == P.DOWN
    ensures ReachableUnder(Serial, w') && w'.known == w.known && w'.me == w.me
    ensures w'.prod.capacity == w.prod.capacity && w'.prod.tasks == map[] && w'.prod.conn == P.DOWN
    ensures w'.prod.durable == w'.prod.db && |Pending(w'.prod.db.rows)| == |Pending(w.prod.db.rows)| + 1
  {
    var now, s := Grow(w);
    ProducerSteps(w, P.Resume(0, P.DoneAt(now)), s);
    UnderStep(Serial, w, Produce(P.Resume(0, P.DoneAt(now))), w.(prod := s));
    w' := FromCommit(w.(prod := s), m);
  }

  lemma Grow(w: World) returns (now: real, s: P.Producer)
    requires ReachableUnder(Serial, w) && 0 in w.prod.tasks && w.prod.tasks[0].Insert?
    ensures P.Step(w.prod, w.logs, P.Resume(0, P.DoneAt(now))) == Some(s)
    ensures |Pending(s.db.rows)| == |Pending(w.prod.db.rows)| + 1
    ensures s == P.Move(w.prod, 0, P.CommitAdd(w.prod.tasks[0].m)).(db := s.db, clock := now)
  {
    UnderIsReachable(Serial, w);
    now := w.prod.clock + 1.0;
    s := InsertGrowsQueue(w.prod, w.logs, 0, now);
  }

  lemma FreshIsNew(w: World, m: Message)
    requires ReachableUnder(Serial, w) && Fresh(w, m)
    ensures m !in w.prod.handed
  {
    UnderIsReachable(Serial, w);
  }

  lemma FromCommit(w: World, m: Message) returns (w': World)
    requires ReachableUnder(Serial, w) && w.prod.tasks == map[0 := P.CommitAdd(m)] && w.prod.conn == P.DOWN
    ensures ReachableUnder(Serial, w') && w'.known == w.known && w'.me == w.me
    ensures w'.prod.capacity == w.prod.capacity && w'.prod.tasks == map[] && w'.prod.conn == P.DOWN
    ensures w'.prod.durable == w'.prod.db == w.prod.db
  {
    var s := P.End(P.Commit(w.prod).(acked := w.prod.acked + {m}), 0);
    TaskSteps(w, 0, P.Done, s);
    w' := w.(prod := s);
    UnderStep(Serial, w, Produce(P.Resume(0, P.Done)), w');
  }

  lemma ToInsert(w: World, m: Message) returns (w': World)
    requires ReachableUnder(Serial, w) && w.prod.tasks == map[] && w.prod.capacity >= 1
    requires m.producer == w.me && Fresh(w, m)
    ensures ReachableUnder(Serial, w') && w'.known == w.known + {m} && w'.me == w.me
    ensures w'.prod == w.prod.(tasks := map[0 := P.Insert(m)], handed := w.prod.handed + {m})
  {
    FreshIsNew(w, m);
    var s1 := P.Move(w.prod, 0, P.Count(m)).(handed := w.prod.handed + {m});
    var w1 := w.(prod := s1, known := w.known + {m});
    ProducerSteps(w, P.StartAdd(0, m), s1);
    UnderStep(Serial, w, Produce(P.StartAdd(0, m)), w1);
    var s2 := P.Move(s1, 0, P.Insert(m));
    TaskSteps(w1, 0, P.Failed, s2);
    w' := w1.(prod := s2);
    UnderStep(Serial, w1, Produce(P.Resume(0, P.Failed)), w');
  }

  /** With one add at a time, every write succeeding, but every COUNT failing, the queue grows past
      any bound. */
  lemma {:induction false} QueueGrows(capacity: nat, n: nat) returns (w: World)
    requires capacity >= 1
    ensures Filled(w, capacity, n)
  {
    if n == 0 {
      w := World("p", _ => 0, [[]], {}, P.Producer(capacity, EMPTY, EMPTY, P.DOWN, map[], 0.0, {}, {}, {}),
                 C.Consumer(C.Store(map[], C.Zeros(1), {}), C.Store(map[], C.Zeros(1), {}), None, C.Zeros(1), {}, map[], {}, 0));
      LeadsUnderSelf(Serial, w);
      assert Init(w);
    } else {
      var before := QueueGrows(capacity, n - 1);
      w := FillOne(before, capacity, n - 1);
    }
  }
}
