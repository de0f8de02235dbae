/** One pass of the flush loop as a function of what the environment does at each await.
    Generation is stopped; other tasks may still lose or restore the connection at any await. */
module FlushSpec {
  import opened Messages
  import opened BufferTable
  import opened BufferHistory

  const BATCH: nat := 100

  /** How send_and_wait ends: acknowledged, a connection or timeout error, or another KafkaError;
      in the last two cases the broker may have appended the message all the same. */
  datatype Outcome = Acked | Lost(appended: bool) | Rejected(appended: bool)

  /** At its n-th await a pass finds outcome(n), and the connection flag afterwards is link(n). */
  datatype Env = Env(outcome: nat -> Outcome, link: nat -> bool)

  datatype State = State(rows: seq<Row>, log: seq<Message>, connected: bool, tick: nat)

  /** Why a pass ends: get_pending returned nothing, the connection was lost, or nothing of a whole
      batch was acknowledged. */
  datatype Exit = NothingFetched | ConnectionLost | BatchFailed

  function Queue(rows: seq<Row>): (q: seq<Message>)
    ensures |q| == |Pending(rows)|
    ensures forall i :: 0 <= i < |q| ==> q[i] == Pending(rows)[i].msg
  {
    var p := Pending(rows);
    seq(|p|, i requires 0 <= i < |p| => p[i].msg)
  }

  /** get_pending(limit): the oldest pending messages. */
  function Oldest(rows: seq<Row>, limit: nat): seq<Message> {
    var q := Queue(rows);
    if |q| <= limit then q else q[..limit]
  }

  /** An await that only lets other tasks run. */
  function Yield(st: State, env: Env): State {
    st.(connected := env.link(st.tick), tick := st.tick + 1)
  }

  function Appended(o: Outcome, m: Message): seq<Message> {
    if o.Acked? || o.appended then [m] else []
  }

  /** _send_single */
  function SendSingle(st: State, m: Message, env: Env): (State, bool) {
    var o := env.outcome(st.tick);
    var log' := st.log + Appended(o, m);
    match o
    case Acked => (State(MarkSent(st.rows, m.id), log', env.link(st.tick), st.tick + 1), true)
    case Lost(_) => (State(st.rows, log', false, st.tick + 1), false)
    case Rejected(_) => (State(st.rows, log', env.link(st.tick), st.tick + 1), false)
  }

  /** The inner for loop: the state after it, how many sends succeeded so far, and whether it
      returned early because the connection was lost. */
  function SendBatch(st: State, batch: seq<Message>, env: Env, sent: nat): (State, nat, bool)
    decreases batch
  {
    if batch == [] then (st, sent, false)
    else if !st.connected then (st, sent, true)
    else
      var (st', ok) := SendSingle(st, batch[0], env);
      SendBatch(st', batch[1..], env, if ok then sent + 1 else sent)
  }

  /** Each message of the batch is a different pending one. */
  ghost predicate Waiting(rows: seq<Row>, batch: seq<Message>) {
    batch != [] ==>
      && batch[0] in PendingMsgs(rows)
      && (forall m :: m in batch[1..] ==> m.id != batch[0].id)
      && Waiting(rows, batch[1..])
  }

  ghost predicate Table(rows: seq<Row>) {
    Chronological(rows)
  }

  lemma {:induction false} WaitingAfterMark(rows: seq<Row>, batch: seq<Message>, id: string)
    requires Table(rows) && Waiting(rows, batch)
    requires forall m :: m in batch ==> m.id != id
    ensures Waiting(MarkSent(rows, id), batch)
  {
    if batch != [] {
      WaitingAfterMark(rows, batch[1..], id);
      MarkKeepsOrder(rows, id);
    }
  }

  /** Every acknowledged send takes exactly one message off the queue. */
  lemma {:induction false} BatchShrinksQueue(st: State, batch: seq<Message>, env: Env, sent: nat)
    requires Table(st.rows) && Waiting(st.rows, batch)
    ensures var (st', sent', lost) := SendBatch(st, batch, env, sent);
      && Table(st'.rows)
      && sent <= sent'
      && |Queue(st'.rows)| + (sent' - sent) == |Queue(st.rows)|
      && st'.tick >= st.tick
    decreases batch
  {
    if batch != [] && st.connected {
      var (st1, ok) := SendSingle(st, batch[0], env);
      if ok {
        MarkShrinksPending(st.rows, batch[0].id);
        MarkKeepsOrder(st.rows, batch[0].id);
        WaitingAfterMark(st.rows, batch[1..], batch[0].id);
      }
      BatchShrinksQueue(st1, batch[1..], env, if ok then sent + 1 else sent);
    }
  }

  lemma {:induction false} QueueWaits(rows: seq<Row>, n: nat, k: nat)
    requires Table(rows) && k <= n <= |Queue(rows)|
    ensures Waiting(rows, Queue(rows)[k..n])
    decreases n - k
  {
    if k < n {
      QueueWaits(rows, n, k + 1);
      PendingIsChronological(rows);
      var q := Queue(rows)[k..n];
      assert q[1..] == Queue(rows)[k + 1..n];
      ChronologicalAt(Pending(rows));
    }
  }

  lemma {:induction false} ChronologicalAt(rows: seq<Row>)
    requires Chronological(rows)
    ensures forall i, j :: 0 <= i < j < |rows| ==> rows[i].createdAt < rows[j].createdAt && rows[i].msg.id != rows[j].msg.id
  {
    if rows != [] {
      ChronologicalAt(rows[1..]);
      forall i, j | 0 <= i < j < |rows| ensures rows[i].createdAt < rows[j].createdAt && rows[i].msg.id != rows[j].msg.id {
        if i == 0 { assert rows[j] == rows[1..][j - 1]; } else { assert rows[i] == rows[1..][i - 1] && rows[j] == rows[1..][j - 1]; }
      }
    }
  }

  lemma OldestWaits(rows: seq<Row>, limit: nat)
    requires Table(rows)
    ensures Waiting(rows, Oldest(rows, limit))
  {
    var q := Queue(rows);
    var n := if |q| <= limit then |q| else limit;
    QueueWaits(rows, n, 0);
    assert q[0..n] == Oldest(rows, limit);
  }

  /** get_pending at the await before this state: nothing when its query raises. */
  function Fetched(st: State, answers: nat -> bool): seq<Message>
    requires st.tick > 0
  {
    if answers(st.tick - 1) then Oldest(st.rows, BATCH) else []
  }

  /** A database whose queries never raise. */
  function Working(): nat -> bool { _ => true }

  lemma FetchedWaits(st: State, answers: nat -> bool)
    requires st.tick > 0 && Table(st.rows)
    ensures Waiting(st.rows, Fetched(st, answers))
    ensures Fetched(st, answers) != [] ==> answers(st.tick - 1) && Fetched(st, answers) == Oldest(st.rows, BATCH)
  {
    OldestWaits(st.rows, BATCH);
  }

  /** A pass takes up to a hundred messages at a time, the oldest ones, in order. */
  lemma FetchesAHundred(st: State, answers: nat -> bool)
    requires st.tick > 0
    ensures answers(st.tick - 1) ==>
      var q := Pending(st.rows);
      && |Fetched(st, answers)| == (if |q| <= 100 then |q| else 100)
      && forall i :: 0 <= i < |Fetched(st, answers)| ==> Fetched(st, answers)[i] == q[i].msg
    ensures !answers(st.tick - 1) ==> Fetched(st, answers) == []
  {
  }

  /** _flush_buffer; the query at await n succeeds if answers(n).  The queue gets shorter on every pass
      through `while True` that goes on. */
  ghost function Flush(st: State, env: Env, answers: nat -> bool): (State, Exit)
    requires Table(st.rows)
    decreases |Queue(st.rows)|
  {
    var st0 := Yield(st, env);
    var batch := Fetched(st0, answers);
    if batch == [] then (st0, NothingFetched)
    else
      var (st1, sent, lost) := SendBatch(st0, batch, env, 0);
      FetchedWaits(st0, answers);
      BatchShrinksQueue(st0, batch, env, 0);
      if lost then (st1, ConnectionLost)
      else
        var st2 := Yield(st1, env);
        if sent == 0 then (st2, BatchFailed) else Flush(st2, env, answers)
  }

  /** One turn of `while True`, with something fetched. */
  lemma FlushTurn(st: State, env: Env, answers: nat -> bool)
    requires Table(st.rows) && Fetched(Yield(st, env), answers) != []
    ensures var (st1, sent, lost) := SendBatch(Yield(st, env), Fetched(Yield(st, env), answers), env, 0);
      && Table(st1.rows) && |Queue(st1.rows)| + sent == |Queue(st.rows)|
      && Flush(st, env, answers) ==
           if lost then (st1, ConnectionLost)
           else if sent == 0 then (Yield(st1, env), BatchFailed)
           else Flush(Yield(st1, env), env, answers)
  {
    FetchedWaits(Yield(st, env), answers);
    BatchShrinksQueue(Yield(st, env), Fetched(Yield(st, env), answers), env, 0);
  }
}
