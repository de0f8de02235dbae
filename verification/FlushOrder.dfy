/** What a flush pass does to the queue and to the log, and when it stops. */
module FlushOrder {
  import opened Messages
  import opened BufferTable
  import opened BufferHistory
  import opened FlushSpec

  // ---- when a pass ends -----------------------------------------------------------

  /** The query of the last await raised. */
  ghost predicate Unread(st: State, answers: nat -> bool) {
    st.tick > 0 && !answers(st.tick - 1)
  }

  lemma FetchedNothing(st: State, answers: nat -> bool)
    requires st.tick > 0 && Fetched(st, answers) == []
    ensures Queue(st.rows) == [] || Unread(st, answers)
  {
  }

  /** A pass ends with an empty queue, on a failed query, without a connection, or after a batch (the oldest messages,
      still all pending) in which no send was acknowledged. */
  lemma {:induction false} WhyFlushStops(st: State, env: Env, answers: nat -> bool)
    requires Chronological(st.rows)
    ensures var (st', exit) := Flush(st, env, answers);
      && Chronological(st'.rows)
      && (exit.NothingFetched? ==> Queue(st'.rows) == [] || Unread(st', answers))
      && (exit.ConnectionLost? ==> !st'.connected)
      && (exit.BatchFailed? ==>
           var n := |Oldest(st'.rows, BATCH)|;
           && 0 < n < st'.tick
           && forall t: nat :: st'.tick - 1 - n <= t < st'.tick - 1 ==> !env.outcome(t).Acked?)
    decreases |Queue(st.rows)|
  {
    var st0 := Yield(st, env);
    var batch := Fetched(st0, answers);
    if batch == [] {
      FetchedNothing(st0, answers);
    } else {
      FetchedWaits(st0, answers);
      BatchShrinksQueue(st0, batch, env, 0);
      EarlyExit(st0, batch, env, 0);
      var (st1, sent, lost) := SendBatch(st0, batch, env, 0);
      if !lost {
        if sent == 0 {
          AllFailed(st0, batch, env);
        } else {
          WhyFlushStops(Yield(st1, env), env, answers);
        }
      }
    }
  }

  /** The state in which a pass may end in each way: the queue is empty or the last query failed; there
      is no connection; or none of the up to a hundred sends before the last await was acknowledged. */
  ghost predicate EndsRightly(st: State, exit: Exit, env: Env, answers: nat -> bool) {
    match exit
    case NothingFetched => Queue(st.rows) == [] || (st.tick > 0 && !answers(st.tick - 1))
    case ConnectionLost => !st.connected
    case BatchFailed =>
      var n := if |Queue(st.rows)| <= 100 then |Queue(st.rows)| else 100;
      0 < n < st.tick && forall t: nat :: st.tick - 1 - n <= t < st.tick - 1 ==> !env.outcome(t).Acked?
  }

  lemma FlushEnds(st: State, env: Env, answers: nat -> bool)
    requires Chronological(st.rows)
    ensures EndsRightly(Flush(st, env, answers).0, Flush(st, env, answers).1, env, answers)
  {
    WhyFlushStops(st, env, answers);
  }

  lemma {:induction false} EarlyExit(st: State, batch: seq<Message>, env: Env, sent: nat)
    ensures var (st', _, lost) := SendBatch(st, batch, env, sent); lost ==> !st'.connected
    decreases batch
  {
    if batch != [] && st.connected {
      var (st1, ok) := SendSingle(st, batch[0], env);
      EarlyExit(st1, batch[1..], env, if ok then sent + 1 else sent);
    }
  }

  lemma {:induction false} SentGrows(st: State, batch: seq<Message>, env: Env, sent: nat)
    ensures SendBatch(st, batch, env, sent).1 >= sent
    decreases batch
  {
    if batch != [] && st.connected {
      var (st1, ok) := SendSingle(st, batch[0], env);
      SentGrows(st1, batch[1..], env, if ok then sent + 1 else sent);
    }
  }

  lemma {:induction false} AllFailed(st: State, batch: seq<Message>, env: Env)
    requires var (_, sent, lost) := SendBatch(st, batch, env, 0); sent == 0 && !lost
    ensures var (st', _, _) := SendBatch(st, batch, env, 0);
      && st'.rows == st.rows && st'.tick == st.tick + |batch|
      && forall t: nat :: st.tick <= t < st.tick + |batch| ==> !env.outcome(t).Acked?
    decreases batch
  {
    if batch != [] {
      var (st1, ok) := SendSingle(st, batch[0], env);
      SentGrows(st1, batch[1..], env, 1);
      AllFailed(st1, batch[1..], env);
    }
  }

  // ---- order -----------------------------------------------------------------------

  /** Only connection and timeout errors happen. */
  ghost predicate NoRejects(env: Env) {
    forall n :: !env.outcome(n).Rejected?
  }

  /** A refused send at await i, on a connection that is there before and after it, and an append
      at the next await: the flush loop steps over the refused message. */
  ghost predicate Skips(env: Env, i: nat) {
    && i >= 1 && env.link(i - 1) && env.outcome(i).Rejected? && env.link(i)
    && env.outcome(i + 1) !in {Lost(false), Rejected(false)}
  }

  ghost predicate NoSkips(env: Env) {
    forall i: nat :: !Skips(env, i)
  }

  lemma NoRejectsNoSkips(env: Env)
    requires NoRejects(env)
    ensures NoSkips(env)
  {
  }

  /** A connection that is up is as the last await left it. */
  ghost predicate Steady(st: State, env: Env) {
    st.connected ==> st.tick >= 1 && env.link(st.tick - 1)
  }

  lemma YieldIsSteady(st: State, env: Env)
    ensures Steady(Yield(st, env), env)
  {
  }

  /** The send of the last await was refused, and the connection was up for it. */
  ghost predicate JustRefused(st: State, env: Env) {
    st.tick >= 2 && env.link(st.tick - 2) && env.outcome(st.tick - 1).Rejected?
  }

  ghost predicate Distinct(q: seq<Message>) {
    forall i, j :: 0 <= i < j < |q| ==> q[i] != q[j]
  }

  lemma QueueIsDistinct(rows: seq<Row>)
    requires Chronological(rows)
    ensures Distinct(Queue(rows))
  {
    PendingIsChronological(rows);
    ChronologicalAt(Pending(rows));
  }

  /** Adjacent repetitions removed. */
  function Collapse(a: seq<Message>): seq<Message> {
    if |a| <= 1 then a
    else if a[0] == a[1] then Collapse(a[1..])
    else [a[0]] + Collapse(a[1..])
  }

  lemma {:induction false} CollapsePrefix(p: seq<Message>, x: seq<Message>)
    requires Distinct(p)
    requires p != [] && x != [] ==> p[|p| - 1] != x[0]
    ensures Collapse(p + x) == p + Collapse(x)
  {
    if p == [] {
      assert p + x == x;
    } else {
      CollapsePrefix(p[1..], x);
      assert (p + x)[1..] == p[1..] + x;
      assert [p[0]] + (p[1..] + Collapse(x)) == p + Collapse(x);
    }
  }

  /** `next` is nothing, or the message now at the head of the queue. */
  ghost predicate Head(next: seq<Message>, rows: seq<Row>) {
    next == [] || (Queue(rows) != [] && next == [Queue(rows)[0]])
  }

  /** The queue lost `done` at its front; the log gained `done`, and after it possibly the next
      message, whose send was reported lost. */
  ghost predicate Took(st: State, st': State, done: seq<Message>, next: seq<Message>) {
    && Queue(st.rows) == done + Queue(st'.rows)
    && st'.log == st.log + (done + next)
    && Head(next, st'.rows)
  }

  /** The last send was reported lost although its message was appended. */
  ghost predicate LastLost(st: State, env: Env) {
    st.tick > 0 && env.outcome(st.tick - 1) == Lost(true)
  }

  lemma TookMore(st: State, st1: State, st2: State, m: Message, done: seq<Message>, next: seq<Message>)
    requires Took(st, st1, [m], []) && Took(st1, st2, done, next)
    ensures Took(st, st2, [m] + done, next)
  {
    assert [m] + (done + Queue(st2.rows)) == [m] + done + Queue(st2.rows);
    assert st.log + ([m] + []) + (done + next) == st.log + ([m] + done + next);
  }

  lemma AckTakes(st: State, m: Message, env: Env)
    requires Chronological(st.rows) && env.outcome(st.tick).Acked?
    requires Queue(st.rows) != [] && Queue(st.rows)[0] == m
    ensures var (st1, ok) := SendSingle(st, m, env);
      ok && Chronological(st1.rows) && Took(st, st1, [m], []) && Queue(st1.rows) == Queue(st.rows)[1..]
  {
    assert Pending(st.rows)[0].msg == m;
    MarkShrinksPending(st.rows, m.id);
    MarkKeepsOrder(st.rows, m.id);
    assert Queue(MarkSent(st.rows, m.id)) == Queue(st.rows)[1..];
    assert [m] + [] == [m];
  }

  lemma TookNothing(st: State)
    ensures Took(st, st, [], [])
  {
    assert [] + Queue(st.rows) == Queue(st.rows) && st.log + ([] + []) == st.log;
  }

  lemma FailureTakes(st: State, m: Message, env: Env)
    requires !env.outcome(st.tick).Acked? && Queue(st.rows) != [] && Queue(st.rows)[0] == m
    ensures Took(st, SendSingle(st, m, env).0, [], Appended(env.outcome(st.tick), m))
  {
    var next := Appended(env.outcome(st.tick), m);
    assert [] + Queue(st.rows) == Queue(st.rows) && [] + next == next;
  }

  lemma SameTook(a: State, b: State, a': State, b': State, done: seq<Message>, next: seq<Message>)
    requires Took(a, a', done, next)
    requires a.rows == b.rows && a.log == b.log && a'.rows == b'.rows && a'.log == b'.log
    ensures Took(b, b', done, next)
  {
  }

  lemma {:induction false} BatchIsFifo(st: State, batch: seq<Message>, env: Env, sent: nat)
    returns (done: seq<Message>, next: seq<Message>)
    requires Chronological(st.rows) && NoSkips(env) && Steady(st, env)
    requires batch <= Queue(st.rows)
    ensures var (st', sent', lost) := SendBatch(st, batch, env, sent);
      && Chronological(st'.rows) && Took(st, st', done, next)
      && (NoRejects(env) && next != [] ==> LastLost(st', env))
    decreases batch
  {
    if batch == [] || !st.connected {
      TookNothing(st);
      done, next := [], [];
    } else if env.outcome(st.tick).Acked? {
      AckTakes(st, batch[0], env);
      var st1 := SendSingle(st, batch[0], env).0;
      done, next := BatchIsFifo(st1, batch[1..], env, sent + 1);
      TookMore(st, st1, SendBatch(st1, batch[1..], env, sent + 1).0, batch[0], done, next);
      done := [batch[0]] + done;
    } else {
      FailureTakes(st, batch[0], env);
      done, next := [], Appended(env.outcome(st.tick), batch[0]);
      FailureEndsBatch(st, batch, env, sent);
      SameTook(st, st, SendSingle(st, batch[0], env).0, SendBatch(st, batch, env, sent).0, done, next);
    }
  }

  /** After a failed send the rest of the batch leaves table and log alone. */
  lemma FailureEndsBatch(st: State, batch: seq<Message>, env: Env, sent: nat)
    requires NoSkips(env) && Steady(st, env) && st.connected && batch != [] && !env.outcome(st.tick).Acked?
    ensures var st1 := SendSingle(st, batch[0], env).0;
      var st' := SendBatch(st, batch, env, sent).0;
      && st'.rows == st1.rows && st'.log == st1.log
      && (env.outcome(st.tick) == Lost(true) ==> LastLost(st', env))
  {
    var st1 := SendSingle(st, batch[0], env).0;
    if env.outcome(st.tick).Lost? {
      AfterLoss(st1, batch[1..], env, sent);
    } else {
      AfterRefusal(st1, batch[1..], env, sent);
    }
  }

  lemma AfterLoss(st: State, rest: seq<Message>, env: Env, sent: nat)
    requires !st.connected
    ensures SendBatch(st, rest, env, sent).0 == st
  {
  }

  lemma {:induction false} AfterRefusal(st: State, rest: seq<Message>, env: Env, sent: nat)
    requires NoSkips(env) && JustRefused(st, env) && Steady(st, env)
    ensures SendBatch(st, rest, env, sent).0.rows == st.rows && SendBatch(st, rest, env, sent).0.log == st.log
    decreases rest
  {
    if rest != [] && st.connected {
      assert !Skips(env, st.tick - 1);
      var st1 := SendSingle(st, rest[0], env).0;
      assert st.log + [] == st.log;
      if env.outcome(st.tick).Lost? {
        AfterLoss(st1, rest[1..], env, sent);
      } else {
        AfterRefusal(st1, rest[1..], env, sent);
      }
    }
  }

  /** What a pass did: the queue lost `done` at its front, and what the log gained is, adjacent
      repetitions aside, `done` and possibly the message now at the head of the queue. */
  ghost predicate Flushed(st: State, st': State, done: seq<Message>, next: seq<Message>, a: seq<Message>) {
    && Queue(st.rows) == done + Queue(st'.rows)
    && st'.log == st.log + a
    && Collapse(a) == done + next
    && Head(next, st'.rows)
  }

  lemma OneBatch(st: State, st': State, done: seq<Message>, next: seq<Message>)
    requires Took(st, st', done, next) && Distinct(Queue(st.rows))
    ensures Flushed(st, st', done, next, done + next)
  {
    DistinctPart(done, Queue(st'.rows));
    CollapseOne(done, next, Queue(st'.rows));
  }

  lemma Rebracket(a: seq<Message>, b: seq<Message>, c: seq<Message>)
    ensures a + (b + c) == a + b + c
  {
  }

  /** The next batch appended nothing: then it took nothing either. */
  lemma QuietBatch(st: State, st1: State, st2: State, done: seq<Message>, next: seq<Message>,
                   done2: seq<Message>, next2: seq<Message>)
    requires Took(st, st1, done, next) && Distinct(Queue(st.rows)) && Flushed(st1, st2, done2, next2, [])
    ensures done2 == [] && Flushed(st, st2, done, next, done + next)
  {
    OneBatch(st, st1, done, next);
    assert done2 + next2 == [];
    assert done2 == [] && [] + Queue(st2.rows) == Queue(st2.rows);
    assert st2.log == st1.log;
  }

  lemma BusyBatch(st: State, st1: State, st2: State, done: seq<Message>, next: seq<Message>,
                  done2: seq<Message>, next2: seq<Message>, a2: seq<Message>)
    requires Took(st, st1, done, next) && Distinct(Queue(st.rows)) && a2 != []
    requires Flushed(st1, st2, done2, next2, a2)
    ensures Flushed(st, st2, done + done2, next2, done + next + a2)
  {
    Rebracket(done, done2, Queue(st2.rows));
    Rebracket(st.log, done + next, a2);
    StartsWithRest(done2, next2, st1.rows, st2.rows, a2);
    DistinctPart(done, Queue(st1.rows));
    Resume(done, next, Queue(st1.rows), a2);
    Rebracket(done, done2, next2);
  }

  /** The first message a batch appends is the first of the queue. */
  lemma StartsWithRest(done: seq<Message>, next: seq<Message>, rows: seq<Row>, rows': seq<Row>, a: seq<Message>)
    requires a != [] && Collapse(a) == done + next && Queue(rows) == done + Queue(rows') && Head(next, rows')
    ensures Queue(rows) != [] && a[0] == Queue(rows)[0]
  {
    FirstOfCollapse(a);
    if done == [] {
      assert done + next == next && done + Queue(rows') == Queue(rows');
    }
  }

  lemma NextBatch(st: State, st1: State, st2: State, done: seq<Message>, next: seq<Message>,
                  done2: seq<Message>, next2: seq<Message>, a2: seq<Message>)
    requires Took(st, st1, done, next) && Distinct(Queue(st.rows))
    requires Flushed(st1, st2, done2, next2, a2)
    ensures Flushed(st, st2, done + done2, if a2 == [] then next else next2, done + next + a2)
  {
    if a2 == [] {
      QuietBatch(st, st1, st2, done, next, done2, next2);
      assert done + done2 == done && done + next + a2 == done + next;
    } else {
      BusyBatch(st, st1, st2, done, next, done2, next2, a2);
    }
  }

  /** Flush order.  As long as no refused message is stepped over (so in particular under connection
      and timeout errors only), and whatever the connection does, a pass takes `done` off the front
      of the queue, across all batches, and leaves exactly the rest; what it appends to the log is,
      repetitions of a message next to itself aside, `done` in order, plus at most the one next
      message, whose send was reported failed. */
  lemma {:induction false} FlushIsFifo(st: State, env: Env, answers: nat -> bool)
    returns (done: seq<Message>, next: seq<Message>, a: seq<Message>)
    requires Chronological(st.rows) && NoSkips(env)
    ensures var st' := Flush(st, env, answers).0;
      && Queue(st.rows) == done + Queue(st'.rows)
      && st'.log == st.log + a
      && Collapse(a) == done + next
      && Head(next, st'.rows)
    decreases |Queue(st.rows)|
  {
    var st0 := Yield(st, env);
    var batch := Fetched(st0, answers);
    QueueIsDistinct(st.rows);
    if batch == [] {
      TookNothing(st);
      OneBatch(st, st0, [], []);
      return [], [], [];
    }
    FetchedWaits(st0, answers);
    BatchShrinksQueue(st0, batch, env, 0);
    YieldIsSteady(st, env);
    done, next := BatchIsFifo(st0, batch, env, 0);
    var (st1, sent, lost) := SendBatch(st0, batch, env, 0);
    if lost || sent == 0 {
      OneBatch(st, st1, done, next);
      a := done + next;
    } else {
      var st2 := Yield(st1, env);
      var done2, next2, a2 := FlushIsFifo(st2, env, answers);
      NextBatch(st, st2, Flush(st2, env, answers).0, done, next, done2, next2, a2);
      done, next, a := done + done2, if a2 == [] then next else next2, done + next + a2;
    }
  }

  lemma DistinctPart(p: seq<Message>, rest: seq<Message>)
    requires Distinct(p + rest)
    ensures Distinct(p)
    ensures forall x, y :: x in p && y in rest ==> x != y
  {
    var q := p + rest;
    forall i, j | 0 <= i < |p| && 0 <= j < |rest| ensures p[i] != rest[j] {
      assert q[i] == p[i] && q[|p| + j] == rest[j];
    }
    forall i, j | 0 <= i < j < |p| ensures p[i] != p[j] {
      assert q[i] == p[i] && q[j] == p[j];
    }
  }

  lemma CollapseOne(done: seq<Message>, next: seq<Message>, rest: seq<Message>)
    requires Distinct(done) && (forall x, y :: x in done && y in rest ==> x != y)
    requires next == [] || (rest != [] && next == [rest[0]])
    ensures Collapse(done + next) == done + next
  {
    assert done != [] ==> done[|done| - 1] in done;
    assert next != [] ==> rest[0] in rest;
    CollapsePrefix(done, next);
  }

  /** The next batch starts with the first message of the remaining queue, which is the one the
      last batch may have appended already. */
  lemma Resume(done: seq<Message>, next: seq<Message>, rest: seq<Message>, a2: seq<Message>)
    requires Distinct(done) && (forall x, y :: x in done && y in rest ==> x != y)
    requires a2 != [] && rest != [] && a2[0] == rest[0]
    requires next == [] || next == [rest[0]]
    ensures Collapse(done + next + a2) == done + Collapse(a2)
  {
    var x := next + a2;
    assert done + next + a2 == done + x;
    assert done != [] ==> done[|done| - 1] in done;
    assert rest[0] in rest;
    CollapsePrefix(done, x);
    if next == [] {
      assert x == a2;
    } else {
      assert x[1..] == a2;
    }
  }

  lemma {:induction false} FirstOfCollapse(a: seq<Message>)
    ensures a == [] <==> Collapse(a) == []
    ensures a != [] ==> Collapse(a)[0] == a[0]
  {
    if |a| > 1 && a[0] == a[1] {
      FirstOfCollapse(a[1..]);
    }
  }

  ghost predicate IsEndOf(s: seq<Message>, t: seq<Message>) {
    |s| <= |t| && s == t[|t| - |s|..]
  }

  /** So without refused messages what is left of the queue is the end of it. */
  lemma FlushTakesFront(st: State, env: Env, answers: nat -> bool)
    requires Chronological(st.rows) && NoRejects(env)
    ensures IsEndOf(Queue(Flush(st, env, answers).0.rows), Queue(st.rows))
  {
    NoRejectsNoSkips(env);
    var done, next, a := FlushIsFifo(st, env, answers);
  }
}
