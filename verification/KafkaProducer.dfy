/** The sending side of ResilientKafkaProducer: send_message, _send_single and _flush_buffer. */
module KafkaProducer {
  import opened Messages
  import opened BufferTable
  import opened BufferHistory
  import opened FlushSpec
  import FlushOrder
  import opened MessageBuffer

  /** send_message: add, whatever it returns, and then a direct send if there is a connection. */
  function Handed(st: FlushSpec.State, m: Message, now: real, capacity: nat, fault: AddFault, env: Env): (FlushSpec.State, bool) {
    var st1 := Yield(st.(rows := AddTo(st.rows, m, now, capacity, fault).0), env);
    if st1.connected then FlushSpec.SendSingle(st1, m, env) else (st1, false)
  }

  class ResilientKafkaProducer {
    const buffer: Buffer
    const env: Env               // what Kafka and the other tasks will do
    const answers: nat -> bool     // whether the query at the n-th await succeeds
    var connected: bool
    var log: seq<Message>        // what the broker has appended
    var tick: nat                // awaits so far

    ghost function State(): FlushSpec.State
      reads this, buffer
    {
      FlushSpec.State(buffer.rows, log, connected, tick)
    }

    ghost predicate Valid()
      reads this, buffer
    {
      buffer.Valid() && buffer.open
    }

    constructor (buffer: Buffer, env: Env, answers: nat -> bool)
      requires buffer.Valid() && buffer.open
      ensures Valid() && this.buffer == buffer && this.env == env && this.answers == answers
      ensures !connected && log == [] && tick == 0
    {
      this.buffer, this.env, this.answers := buffer, env, answers;
      connected, log, tick := false, [], 0;
    }

    /** An await at which the other tasks may change the connection. */
    method Await()
      modifies this
      ensures State() == Yield(old(State()), env)
    {
      connected, tick := env.link(tick), tick + 1;
    }

    /** _send_single: success takes the message off the queue and puts it in the log; failure leaves
        the queue as it was, whether or not the broker appended the message. */
    method SendSingle(m: Message) returns (ok: bool)
      requires Valid() && connected
      modifies this, buffer
      ensures Valid()
      ensures ok <==> env.outcome(old(tick)).Acked?
      ensures ok ==> log == old(log) + [m] && Pending(buffer.rows) == Without(old(Pending(buffer.rows)), m.id)
      ensures !ok ==> buffer.rows == old(buffer.rows)
      ensures !ok ==> log == old(log) + if env.outcome(old(tick)).appended then [m] else []
      ensures tick == old(tick) + 1 && connected == (!env.outcome(old(tick)).Lost? && env.link(old(tick)))
      ensures (State(), ok) == FlushSpec.SendSingle(old(State()), m, env)
    {
      var outcome := env.outcome(tick);
      assert log + [] == log;
      log := log + Appended(outcome, m);
      match outcome
      case Acked =>
        buffer.MarkDelivered(m.id);
        Await();
        return true;
      case Lost(_) =>
        connected, tick := false, tick + 1;
        return false;
      case Rejected(_) =>
        Await();
        return false;
    }

    /** The message is in the buffer before Kafka sees it, and whatever Kafka then does, it is
        still waiting there or has been appended to the log; only a message whose INSERT failed can
        be neither, and it can be sent without ever having been in the buffer. */
    method SendMessage(m: Message, now: real, fault: AddFault) returns (delivered: bool)
      requires Valid() && buffer.capacity >= 1
      requires !HasId(buffer.rows, m.id) && forall r :: r in buffer.rows ==> r.createdAt < now
      modifies this, buffer
      ensures Valid()
      ensures delivered ==> log == old(log) + [m] && m !in PendingMsgs(buffer.rows)
      ensures !delivered ==> (m in PendingMsgs(buffer.rows) <==> Inserts(old(buffer.rows), buffer.capacity, fault))
      ensures delivered <==> env.link(old(tick)) && env.outcome(old(tick) + 1).Acked?
      ensures !delivered ==>
        log == old(log) + if env.link(old(tick)) && env.outcome(old(tick) + 1).appended then [m] else []
      ensures (State(), delivered) == Handed(old(State()), m, now, buffer.capacity, fault, env)
    {
      HandedMeans(State(), m, now, buffer.capacity, fault, env);
      var ok := buffer.Add(m, now, fault);
      Await();
      if !connected {
        return false;
      }
      delivered := SendSingle(m);
    }

    /** The inner `for msg in pending` loop of _flush_buffer. */
    method SendAll(pending: seq<Message>) returns (sent: nat, lost: bool)
      requires Valid()
      modifies this, buffer
      ensures Valid()
      ensures (State(), sent, lost) == SendBatch(old(State()), pending, env, 0)
    {
      sent := 0;
      for i := 0 to |pending|
        invariant Valid()
        invariant SendBatch(State(), pending[i..], env, sent) == SendBatch(old(State()), pending, env, 0)
      {
        var rest := pending[i..];
        assert rest[0] == pending[i] && rest[1..] == pending[i + 1..];
        if !connected {
          return sent, true;
        }
        var success := SendSingle(pending[i]);
        if success {
          sent := sent + 1;
        }
      }
      return sent, false;
    }

    /** One turn of `while True`: fetch a batch, send it message by message, go on if something was sent. */
    method FlushOnce() returns (more: bool, exit: Exit)
      requires Valid()
      modifies this, buffer
      ensures Valid()
      ensures !more ==> (State(), exit) == Flush(old(State()), env, answers)
      ensures more ==> Flush(State(), env, answers) == Flush(old(State()), env, answers)
      ensures more ==> |Queue(buffer.rows)| < |Queue(old(buffer.rows))|
    {
      ghost var before := State();
      Await();
      var pending := buffer.GetPending(BATCH, !answers(tick - 1));
      if |pending| == 0 {
        return false, NothingFetched;
      }
      FlushTurn(before, env, answers);
      var sent, lost := SendAll(pending);
      if lost {
        return false, ConnectionLost;
      }
      Await();
      return sent > 0, BatchFailed;
    }

    /** A pass stops on an empty queue, on a failed query, without a connection, or after a batch of
        which nothing was acknowledged; without non-retriable errors, what it takes off the queue is
        the front of it. */
    method FlushBuffer() returns (exit: Exit)
      requires Valid()
      modifies this, buffer
      ensures Valid()
      ensures FlushOrder.EndsRightly(State(), exit, env, answers)
      ensures FlushOrder.NoRejects(env) ==> FlushOrder.IsEndOf(Queue(buffer.rows), old(Queue(buffer.rows)))
      ensures (State(), exit) == Flush(old(State()), env, answers)
    {
      FlushOrder.FlushEnds(State(), env, answers);
      if FlushOrder.NoRejects(env) {
        FlushOrder.FlushTakesFront(State(), env, answers);
      }
      var more;
      more, exit := FlushOnce();
      while more
        invariant Valid()
        invariant more ==> Flush(State(), env, answers) == Flush(old(State()), env, answers)
        invariant !more ==> (State(), exit) == Flush(old(State()), env, answers)
        decreases more, |Queue(buffer.rows)|
      {
        more, exit := FlushOnce();
      }
    }
  }

  lemma NewestIsPending(rows: seq<Row>, m: Message, now: real, capacity: nat, fault: AddFault)
    requires Chronological(rows) && (forall r :: r in rows ==> r.createdAt < now) && !HasId(rows, m.id) && capacity >= 1
    ensures m in PendingMsgs(AddTo(rows, m, now, capacity, fault).0) <==> Inserts(rows, capacity, fault)
  {
    AddKeepsNewest(rows, m, now, capacity, fault);
    var queue := Pending(AddTo(rows, m, now, capacity, fault).0);
    if Inserts(rows, capacity, fault) {
      assert queue[|queue| - 1] == Row(m, now, false) && queue[|queue| - 1] in queue;
    } else {
      assert forall r :: r in queue ==> r in Pending(rows);
    }
  }

  /** What becomes of a message that is handed over: it is delivered exactly if there is a connection
      after the add and the broker acknowledges; otherwise it waits exactly if its INSERT was executed. */
  lemma HandedMeans(st: FlushSpec.State, m: Message, now: real, capacity: nat, fault: AddFault, env: Env)
    requires Chronological(st.rows) && (forall r :: r in st.rows ==> r.createdAt < now) && !HasId(st.rows, m.id) && capacity >= 1
    ensures var (st', delivered) := Handed(st, m, now, capacity, fault, env);
      && (delivered <==> env.link(st.tick) && env.outcome(st.tick + 1).Acked?)
      && (delivered ==> st'.log == st.log + [m] && m !in PendingMsgs(st'.rows))
      && (!delivered ==> (m in PendingMsgs(st'.rows) <==> Inserts(st.rows, capacity, fault)))
      && (!delivered ==> st'.log == st.log + if env.link(st.tick) && env.outcome(st.tick + 1).appended then [m] else [])
  {
    NewestIsPending(st.rows, m, now, capacity, fault);
    var st1 := Yield(st.(rows := AddTo(st.rows, m, now, capacity, fault).0), env);
    if st1.connected {
      SentMeans(st1, m, env);
    } else {
      assert st.log + [] == st.log;
    }
  }

  /** The same for one send by itself. */
  lemma SentMeans(st: FlushSpec.State, m: Message, env: Env)
    ensures var (st', ok) := FlushSpec.SendSingle(st, m, env);
      && (ok <==> env.outcome(st.tick).Acked?)
      && (ok ==> st'.log == st.log + [m] && m !in PendingMsgs(st'.rows))
      && (!ok ==> st'.rows == st.rows && st'.log == st.log + if env.outcome(st.tick).appended then [m] else [])
  {
    if env.outcome(st.tick).Acked? {
      MarkRemoves(st.rows, m.id);
      NotWaiting(st.rows, MarkSent(st.rows, m.id), m);
    }
  }

  /** Once off the queue, a message is not pending. */
  lemma NotWaiting(rows: seq<Row>, rows': seq<Row>, m: Message)
    requires Pending(rows') == Without(Pending(rows), m.id)
    ensures m !in PendingMsgs(rows')
  {
    assert forall r :: r in Pending(rows') ==> r.msg.id != m.id;
  }

  /** A send that returns True took the message off the queue and put it in the log; any other
      leaves the queue as it was, whether or not the broker appended the message. */
  lemma SentOrWaiting(st: FlushSpec.State, m: Message, env: Env)
    requires Chronological(st.rows) && m in PendingMsgs(st.rows)
    ensures var (st', ok) := FlushSpec.SendSingle(st, m, env);
      && (ok ==> st'.log == st.log + [m] && m !in PendingMsgs(st'.rows) && |Pending(st'.rows)| == |Pending(st.rows)| - 1)
      && (!ok ==> st'.rows == st.rows && (st'.log == st.log || st'.log == st.log + [m]))
  {
    if env.outcome(st.tick).Acked? {
      MarkedIsGone(st.rows, m);
    } else {
      assert st.log + [] == st.log;
    }
  }

  lemma MarkedIsGone(rows: seq<Row>, m: Message)
    requires Chronological(rows) && m in PendingMsgs(rows)
    ensures m !in PendingMsgs(MarkSent(rows, m.id)) && |Pending(MarkSent(rows, m.id))| == |Pending(rows)| - 1
  {
    MarkShrinksPending(rows, m.id);
    var r :| r in rows && !r.sent && r.msg == m;
    assert r in Pending(rows);
    forall o | o in MarkSent(rows, m.id) && !o.sent ensures o.msg != m {
      var i :| 0 <= i < |rows| && MarkSent(rows, m.id)[i] == o;
    }
  }
}
