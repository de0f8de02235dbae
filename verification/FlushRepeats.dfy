/** When a flush pass writes a message to the log twice.  The last message of a batch may be lost
    but appended; the pass still goes on if an earlier send of the batch was acknowledged, and if
    another task has restored the connection by then, the message is sent again. */
module FlushRepeats {
  import opened Messages
  import opened BufferTable
  import opened FlushSpec
  import opened FlushOrder

  /** An acknowledged send at await i - 1, a lost but appended one at await i, the connection back by
      the next fetch at await i + 2, and another append at await i + 3. */
  ghost predicate Repeats(env: Env, i: nat) {
    && i >= 2
    && env.link(i - 2) && env.outcome(i - 1).Acked? && env.link(i - 1)
    && env.outcome(i) == Lost(true)
    && env.link(i + 2) && env.outcome(i + 3) in {Acked, Lost(true)}
  }

  /** The pass appended exactly what it took off the queue, once each, plus at most the next message. */
  ghost predicate Plain(st: State, env: Env, answers: nat -> bool)
    requires Chronological(st.rows)
  {
    exists done, next :: Took(st, Flush(st, env, answers).0, done, next)
  }

  /** In a given environment every pass over every table writes each message once if and only if
      the environment never does the above. */
  lemma OnceEachIffNoRepeats(env: Env)
    requires NoRejects(env)
    ensures (forall st: State, answers: nat -> bool :: Chronological(st.rows) ==> Plain(st, env, answers)) <==> (forall i: nat :: !Repeats(env, i))
  {
    if i: nat :| Repeats(env, i) {
      var st := TwoWaiting(i - 2);
      WritesTwice(env, i);
      assert !Plain(st, env, Working());
    } else {
      forall st: State, answers: nat -> bool | Chronological(st.rows) ensures Plain(st, env, answers) {
        var done, next := PlainPass(st, env, answers);
      }
    }
  }

  /** The connection flag is as the last await left it. */
  ghost predicate Linked(st: State, env: Env) {
    st.tick >= 1 && st.connected == env.link(st.tick - 1)
  }

  lemma YieldLinks(st: State, env: Env)
    ensures Linked(Yield(st, env), env)
  {
  }

  // ---- without repeats ---------------------------------------------------------------

  lemma {:induction false} PlainPass(st: State, env: Env, answers: nat -> bool) returns (done: seq<Message>, next: seq<Message>)
    requires Chronological(st.rows) && NoRejects(env) && forall i: nat :: !Repeats(env, i)
    ensures Took(st, Flush(st, env, answers).0, done, next)
    decreases |Queue(st.rows)|
  {
    var st0 := Yield(st, env);
    var batch := Fetched(st0, answers);
    if batch == [] {
      TookNothing(st);
      done, next := [], [];
    } else {
      FetchedWaits(st0, answers);
      BatchShrinksQueue(st0, batch, env, 0);
      NoRejectsNoSkips(env);
      YieldIsSteady(st, env);
      done, next := BatchIsFifo(st0, batch, env, 0);
      var (st1, sent, lost) := SendBatch(st0, batch, env, 0);
      var st2 := Yield(st1, env);
      if lost || sent == 0 {
        SameTook(st0, st, st1, Flush(st, env, answers).0, done, next);
      } else if next != [] {
        YieldLinks(st, env);
        NoSecondTry(st0, batch, env, answers, st1, sent);
        SameTook(st0, st, st1, Flush(st2, env, answers).0, done, next);
      } else {
        var done2, next2 := PlainPass(st2, env, answers);
        SameTook(st0, st, st1, st2, done, next);
        TookJoin(st, st2, Flush(st2, env, answers).0, done, done2, next2);
        done, next := done + done2, next2;
      }
    }
  }

  /** After a lost but appended last send, the next pass of the loop appends nothing. */
  lemma NoSecondTry(st: State, batch: seq<Message>, env: Env, answers: nat -> bool, st': State, sent: nat)
    requires NoRejects(env) && forall i: nat :: !Repeats(env, i)
    requires batch != [] && Linked(st, env)
    requires SendBatch(st, batch, env, 0) == (st', sent, false) && sent > 0
    requires LastLost(st', env) && Chronological(st'.rows)
    ensures Flush(Yield(st', env), env, answers).0.rows == st'.rows && Flush(Yield(st', env), env, answers).0.log == st'.log
  {
    HowBatchEnds(st, batch, env, 0);
    assert !Repeats(env, st'.tick - 1);
    QuietPass(Yield(st', env), env, answers);
  }

  lemma TookJoin(st: State, st1: State, st2: State, done: seq<Message>, done2: seq<Message>, next: seq<Message>)
    requires Took(st, st1, done, []) && Took(st1, st2, done2, next)
    ensures Took(st, st2, done + done2, next)
  {
    assert done + (done2 + Queue(st2.rows)) == done + done2 + Queue(st2.rows);
    assert st.log + (done + []) + (done2 + next) == st.log + (done + done2 + next);
  }

  /** A batch that ends on a lost send, after an acknowledged one, ends on exactly these two. */
  lemma {:induction false} HowBatchEnds(st: State, batch: seq<Message>, env: Env, sent: nat)
    requires NoRejects(env) && batch != []
    requires Linked(st, env)
    ensures var (st', sent', lost) := SendBatch(st, batch, env, sent);
      !lost && st'.tick > 0 && env.outcome(st'.tick - 1).Lost? && sent' > sent ==>
        st'.tick >= 3 && env.outcome(st'.tick - 2).Acked? && env.link(st'.tick - 2) && env.link(st'.tick - 3)
    decreases batch
  {
    if st.connected && env.outcome(st.tick).Acked? {
      var st1 := SendSingle(st, batch[0], env).0;
      if batch[1..] != [] {
        HowBatchEnds(st1, batch[1..], env, sent + 1);
        if st1.connected && env.outcome(st1.tick).Lost? {
          AfterLoss(SendSingle(st1, batch[1], env).0, batch[1..][1..], env, sent + 1);
        } else if st1.connected {
          SentGrows(SendSingle(st1, batch[1], env).0, batch[1..][1..], env, sent + 2);
        }
      }
    } else if st.connected {
      NothingSent(SendSingle(st, batch[0], env).0, batch[1..], env, sent);
    }
  }

  lemma NothingSent(st: State, rest: seq<Message>, env: Env, sent: nat)
    requires !st.connected
    ensures SendBatch(st, rest, env, sent).1 == sent
  {
  }

  /** A pass that finds no connection, or whose first send is lost without a trace, changes nothing. */
  lemma QuietPass(st: State, env: Env, answers: nat -> bool)
    requires Chronological(st.rows)
    requires !env.link(st.tick) || env.outcome(st.tick + 1) == Lost(false)
    ensures Flush(st, env, answers).0.rows == st.rows && Flush(st, env, answers).0.log == st.log
  {
    var st0 := Yield(st, env);
    var batch := Fetched(st0, answers);
    if batch != [] && st0.connected {
      var st1 := SendSingle(st0, batch[0], env).0;
      assert st1.rows == st.rows && st1.log == st.log + [];
      AfterLoss(st1, batch[1..], env, 0);
      NothingSent(st1, batch[1..], env, 0);
    }
  }

  // ---- with repeats --------------------------------------------------------------------

  const FIRST := Message("a", 1, "p", "", "")
  const SECOND := Message("b", 2, "p", "", "")

  function TwoWaiting(tick: nat): (st: State)
    ensures Chronological(st.rows)
  {
    var a, b := Row(FIRST, 0.0, false), Row(SECOND, 1.0, false);
    assert [a, b][1..] == [b] && [b][1..] == [];
    assert Chronological([b]);
    State([a, b], [], false, tick)
  }

  lemma QueueOf(a: Row, b: Row)
    ensures Queue([a, b]) == (if a.sent then [] else [a.msg]) + (if b.sent then [] else [b.msg])
  {
    assert [a, b][1..] == [b] && [b][1..] == [];
    assert Pending([b]) == if b.sent then [] else [b] + [];
    assert Pending([a, b]) == if a.sent then Pending([b]) else [a] + Pending([b]);
  }

  lemma WritesTwice(env: Env, i: nat)
    requires Repeats(env, i) && NoRejects(env)
    ensures !Plain(TwoWaiting(i - 2), env, Working())
  {
    var st := TwoWaiting(i - 2);
    QueueOf(st.rows[0], st.rows[1]);
    FirstPass(env, i);
    SecondPass(env, i);
    var st' := Flush(st, env, Working()).0;
    forall done, next ensures !Took(st, st', done, next) {
      TookIsShort(st, st', done, next);
    }
  }

  /** No pass that writes each message once can append more than the whole queue. */
  lemma TookIsShort(st: State, st': State, done: seq<Message>, next: seq<Message>)
    ensures Took(st, st', done, next) ==> |st'.log| <= |st.log| + |Queue(st.rows)|
  {
  }

  /** A pass whose first batch ends with something sent goes on from there. */
  lemma PassGoesOn(st: State, env: Env, answers: nat -> bool, batch: seq<Message>, st1: State, sent: nat)
    requires Chronological(st.rows) && batch != [] && batch == Fetched(Yield(st, env), answers)
    requires SendBatch(Yield(st, env), batch, env, 0) == (st1, sent, false) && sent > 0
    ensures Chronological(st1.rows)
    ensures Flush(st, env, answers) == Flush(Yield(st1, env), env, answers)
  {
    FlushTurn(st, env, answers);
  }

  lemma FetchesBoth(tick: nat, connected: bool)
    requires tick > 0
    ensures Fetched(State(TwoWaiting(0).rows, [], connected, tick), Working()) == [FIRST, SECOND]
  {
    var rows := TwoWaiting(0).rows;
    QueueOf(rows[0], rows[1]);
    assert [FIRST] + [SECOND] == [FIRST, SECOND];
  }

  /** Both messages are appended, the second one as a loss, and the pass goes on. */
  lemma FirstPass(env: Env, i: nat)
    requires Repeats(env, i)
    ensures var st := TwoWaiting(i - 2);
      Flush(st, env, Working()) == Flush(State([st.rows[0].(sent := true), st.rows[1]], [FIRST, SECOND], env.link(i + 1), i + 2), env, Working())
  {
    var st := TwoWaiting(i - 2);
    var st0 := Yield(st, env);
    assert st0 == State(st.rows, [], true, i - 1);
    FetchesBoth(i - 1, true);
    BatchOfTwo(st0, env, i);
    var st1 := State([st.rows[0].(sent := true), st.rows[1]], [FIRST, SECOND], false, i + 1);
    PassGoesOn(st, env, Working(), [FIRST, SECOND], st1, 1);
  }

  lemma MarkFirst(rows: seq<Row>)
    requires |rows| == 2 && rows[0].msg == FIRST && rows[1].msg == SECOND
    ensures MarkSent(rows, FIRST.id) == [rows[0].(sent := true), rows[1]]
  {
  }

  lemma BatchOfTwo(st: State, env: Env, i: nat)
    requires Repeats(env, i)
    requires st == State(TwoWaiting(i - 2).rows, [], true, i - 1)
    ensures SendBatch(st, [FIRST, SECOND], env, 0) ==
      (State([st.rows[0].(sent := true), st.rows[1]], [FIRST, SECOND], false, i + 1), 1, false)
  {
    var batch := [FIRST, SECOND];
    assert batch[1..] == [SECOND];
    var s1 := State([st.rows[0].(sent := true), st.rows[1]], [FIRST], true, i);
    MarkFirst(st.rows);
    assert st.log + [FIRST] == [FIRST];
    assert SendSingle(st, FIRST, env) == (s1, true);
    BatchOfOne(s1, env, SECOND, 1);
    assert s1.log + [SECOND] == [FIRST, SECOND];
  }

  /** A batch of one message whose send is lost but appended. */
  lemma BatchOfOne(st: State, env: Env, m: Message, sent: nat)
    requires st.connected && env.outcome(st.tick) == Lost(true)
    ensures SendBatch(st, [m], env, sent) == (State(st.rows, st.log + [m], false, st.tick + 1), sent, false)
  {
    var s2 := SendSingle(st, m, env).0;
    assert [m][1..] == [];
    assert SendBatch(s2, [], env, sent) == (s2, sent, false);
  }

  lemma EmptyPass(st: State, env: Env, answers: nat -> bool)
    requires Chronological(st.rows) && Queue(st.rows) == []
    ensures Flush(st, env, answers).0.log == st.log
  {
    assert Oldest(st.rows, BATCH) == [];
  }

  /** The second message's second send. */
  lemma SendsAgain(st: State, env: Env) returns (st1: State, sent: nat)
    requires st.connected && env.outcome(st.tick) in {Acked, Lost(true)} && st.log == [FIRST, SECOND]
    requires |st.rows| == 2 && st.rows[0].sent && st.rows[0].msg == FIRST && !st.rows[1].sent && st.rows[1].msg == SECOND
    ensures SendBatch(st, [SECOND], env, 0) == (st1, sent, false)
    ensures st1.log == [FIRST, SECOND, SECOND] && |st1.rows| == 2 && st1.rows[0].sent && (sent > 0 ==> st1.rows[1].sent)
  {
    var (s1, ok) := SendSingle(st, SECOND, env);
    st1 := s1;
    sent := if ok then 1 else 0;
    assert st1.log == [FIRST, SECOND] + [SECOND];
    assert [SECOND][1..] == [];
    assert SendBatch(st1, [], env, sent) == (st1, sent, false);
  }

  lemma AllSent(rows: seq<Row>)
    requires |rows| == 2 && rows[0].sent && rows[1].sent
    ensures Queue(rows) == []
  {
    assert rows == [rows[0], rows[1]];
    QueueOf(rows[0], rows[1]);
  }

  /** The second message is appended again. */
  lemma SecondPass(env: Env, i: nat)
    requires Repeats(env, i)
    ensures var st := TwoWaiting(i - 2);
      Flush(State([st.rows[0].(sent := true), st.rows[1]], [FIRST, SECOND], env.link(i + 1), i + 2), env, Working()).0.log == [FIRST, SECOND, SECOND]
  {
    var r := TwoWaiting(i - 2).rows;
    var st := State([r[0].(sent := true), r[1]], [FIRST, SECOND], env.link(i + 1), i + 2);
    var st0 := Yield(st, env);
    FetchesSecond(r, i + 3);
    var st1, sent := SendsAgain(st0, env);
    if sent > 0 {
      PassGoesOn(st, env, Working(), [SECOND], st1, sent);
      AllSent(st1.rows);
      EmptyPass(Yield(st1, env), env, Working());
    }
  }

  lemma FetchesSecond(r: seq<Row>, tick: nat)
    requires |r| == 2 && r == TwoWaiting(0).rows && tick > 0
    ensures Fetched(State([r[0].(sent := true), r[1]], [FIRST, SECOND], true, tick), Working()) == [SECOND]
  {
    QueueOf(r[0].(sent := true), r[1]);
    assert [] + [SECOND] == [SECOND];
  }
}
