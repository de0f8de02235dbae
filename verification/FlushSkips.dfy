/** When the flush loop breaks its own order.  A refused message (a KafkaError that is neither a
    connection nor a timeout error) is left in the buffer and the loop goes on with the next one. */
module FlushSkips {
  import opened Messages
  import opened BufferTable
  import opened FlushSpec
  import opened FlushOrder
  import opened FlushRepeats

  ghost predicate Fifo(st: State, env: Env, answers: nat -> bool)
    requires Chronological(st.rows)
  {
    exists done, next, a :: Flushed(st, Flush(st, env, answers).0, done, next, a)
  }

  /** In a given environment every pass over every table is first-in-first-out if and only if the
      environment never lets a send append directly after a refusal on a standing connection. */
  lemma FifoIffNoSkips(env: Env)
    ensures (forall st: State, answers: nat -> bool :: Chronological(st.rows) ==> Fifo(st, env, answers)) <==> NoSkips(env)
  {
    if i: nat :| Skips(env, i) {
      StepsOver(env, i);
      assert !Fifo(TwoWaiting(i - 1), env, Working());
    } else {
      forall st: State, answers: nat -> bool | Chronological(st.rows) ensures Fifo(st, env, answers) {
        var done, next, a := FlushIsFifo(st, env, answers);
        assert Flushed(st, Flush(st, env, answers).0, done, next, a);
      }
    }
  }

  // ---- a pass that steps over -----------------------------------------------------------

  /** What such a pass leaves: the second message is in the log before the first was acknowledged. */
  ghost predicate OutOfOrder(queue: seq<Message>, log: seq<Message>) {
    || (queue == [FIRST, SECOND] && log in {[SECOND], [FIRST, SECOND]})
    || (queue == [FIRST] && log in {[SECOND], [FIRST, SECOND], [SECOND, FIRST], [FIRST, SECOND, FIRST]})
    || (queue == [] && log in {[SECOND, FIRST], [FIRST, SECOND, FIRST]})
  }

  lemma CollapseShort()
    ensures Collapse([SECOND]) == [SECOND]
    ensures Collapse([FIRST, SECOND]) == [FIRST, SECOND]
    ensures Collapse([SECOND, FIRST]) == [SECOND, FIRST]
    ensures Collapse([FIRST, SECOND, FIRST]) == [FIRST, SECOND, FIRST]
  {
    assert [FIRST, SECOND][1..] == [SECOND] && [SECOND, FIRST][1..] == [FIRST];
    assert [FIRST, SECOND, FIRST][1..] == [SECOND, FIRST];
  }

  lemma NotInOrder(st: State, st': State, done: seq<Message>, next: seq<Message>, a: seq<Message>)
    requires Queue(st.rows) == [FIRST, SECOND] && st.log == []
    requires OutOfOrder(Queue(st'.rows), st'.log)
    ensures !Flushed(st, st', done, next, a)
  {
    CollapseShort();
    var q := Queue(st'.rows);
    assert [] + a == a;
    assert |q| == 2 ==> |done + q| == 2 ==> done == [];
    assert |q| == 1 && |done| == 1 ==> (done + q)[1] == FIRST;
    assert q == [] ==> done + q == done;
    assert next == [] ==> done + next == done;
  }

  lemma StepsOver(env: Env, i: nat)
    requires Skips(env, i)
    ensures !Fifo(TwoWaiting(i - 1), env, Working())
  {
    var st := TwoWaiting(i - 1);
    WaitingQueue(i - 1);
    PassOver(env, i);
    forall done, next, a ensures !Flushed(st, Flush(st, env, Working()).0, done, next, a) {
      NotInOrder(st, Flush(st, env, Working()).0, done, next, a);
    }
  }

  lemma PassOver(env: Env, i: nat)
    requires Skips(env, i)
    ensures var st' := Flush(TwoWaiting(i - 1), env, Working()).0; OutOfOrder(Queue(st'.rows), st'.log)
  {
    var st := TwoWaiting(i - 1);
    var st0 := Yield(st, env);
    WaitingQueue(i - 1);
    assert st0 == State(st.rows, [], true, i);
    assert Fetched(st0, Working()) == [FIRST, SECOND];
    BothSent(st0, env, i);
    var (st1, sent, lost) := SendBatch(st0, [FIRST, SECOND], env, 0);
    if sent != 0 {
      LeftQueue(st.rows[0], st.rows[1].(sent := true));
      OneLeft(Yield(st1, env), env);
      LogsAfter(st1.log);
    }
  }

  lemma WaitingQueue(tick: nat)
    ensures Queue(TwoWaiting(tick).rows) == [FIRST, SECOND]
  {
    var rows := TwoWaiting(tick).rows;
    QueueOf(rows[0], rows[1]);
    assert [FIRST] + [SECOND] == [FIRST, SECOND];
  }

  lemma LeftQueue(a: Row, b: Row)
    requires !a.sent && b.sent && a.msg == FIRST
    ensures Queue([a, b]) == [FIRST]
  {
    QueueOf(a, b);
    assert [FIRST] + [] == [FIRST];
  }

  lemma LogsAfter(log: seq<Message>)
    requires log in {[SECOND], [FIRST, SECOND]}
    ensures log + [FIRST] in {[SECOND, FIRST], [FIRST, SECOND, FIRST]}
  {
    assert [SECOND] + [FIRST] == [SECOND, FIRST] && [FIRST, SECOND] + [FIRST] == [FIRST, SECOND, FIRST];
  }

  /** The refused send and the one after it. */
  lemma BothSent(st: State, env: Env, i: nat)
    requires Skips(env, i) && st == State(TwoWaiting(i - 1).rows, [], true, i)
    ensures var (st1, sent, lost) := SendBatch(st, [FIRST, SECOND], env, 0);
      && !lost && st1.log in {[SECOND], [FIRST, SECOND]}
      && (sent == 0 ==> st1.rows == st.rows)
      && (sent != 0 ==> sent == 1 && st1.rows == [st.rows[0], st.rows[1].(sent := true)])
  {
    var first := Appended(env.outcome(i), FIRST);
    var s1 := State(st.rows, first, true, i + 1);
    assert [] + first == first;
    assert SendSingle(st, FIRST, env) == (s1, false);
    assert [FIRST, SECOND][1..] == [SECOND] && [SECOND][1..] == [];
    var (s2, ok) := SendSingle(s1, SECOND, env);
    assert s2.log == first + [SECOND];
    assert [] + [SECOND] == [SECOND] && [FIRST] + [SECOND] == [FIRST, SECOND];
    assert SendBatch(s2, [], env, if ok then 1 else 0) == (s2, if ok then 1 else 0, false);
    assert SendBatch(s1, [SECOND], env, 0) == (s2, if ok then 1 else 0, false);
    if ok { assert s2.rows == [st.rows[0], st.rows[1].(sent := true)]; }
  }

  /** A pass over a queue of one message. */
  lemma OneLeft(st: State, env: Env)
    requires Chronological(st.rows) && |st.rows| == 2 && st.rows[0] == Row(FIRST, 0.0, false) && st.rows[1].sent && st.rows[1].msg == SECOND
    requires Queue(st.rows) == [FIRST]
    ensures var st' := Flush(st, env, Working()).0;
      || (Queue(st'.rows) == [FIRST] && st'.log in {st.log, st.log + [FIRST]})
      || (Queue(st'.rows) == [] && st'.log == st.log + [FIRST])
  {
    var st0 := Yield(st, env);
    assert Fetched(st0, Working()) == [FIRST] && [FIRST][1..] == [];
    if st0.connected {
      var (s1, ok) := SendSingle(st0, FIRST, env);
      assert st0.log + [] == st0.log;
      assert SendBatch(s1, [], env, if ok then 1 else 0) == (s1, if ok then 1 else 0, false);
      if ok {
        AllMarked(st0.rows);
      }
    }
  }

  lemma AllMarked(rows: seq<Row>)
    requires |rows| == 2 && rows[0].msg == FIRST && rows[1].sent && rows[1].msg == SECOND
    ensures Queue(MarkSent(rows, FIRST.id)) == []
  {
    var r := MarkSent(rows, FIRST.id);
    assert r == [r[0], r[1]];
    QueueOf(r[0], r[1]);
  }
}
