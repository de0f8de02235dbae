/** When does the producer deliver in order?  A message may be handed to Kafka before an older one is
    in the log: by the direct send, by a flush that steps over a refused message, or by two tasks
    that send at the same time.  The numbers of a producer first appear in its log in increasing
    order, whatever the broker does, exactly if this never happens. */
module SendOrder {
  import opened Messages
  import opened KafkaLog
  import opened Reconciler
  import opened Delivery
  import opened ReconcilerSoundness
  import P = ProducerSystem

  /** m is handed to Kafka for the first time by this step. */
  ghost predicate Hands(w: World, a: Action, m: Message) {
    && Step(w, a).Some?
    && m in Step(w, a).value.prod.requested && m !in w.prod.requested
  }

  /** Of two messages handed to Kafka, the older one is in the log. */
  ghost predicate OlderIsLogged(w: World, m: Message, n: Message) {
    && (n.sequence < m.sequence ==> InLog(w, w.me, n.sequence))
    && (m.sequence < n.sequence ==> InLog(w, w.me, m.sequence))
  }

  /** A message is handed to Kafka for the first time only when every older message that was handed
      to Kafka is in the log, and no younger one was. */
  ghost predicate Orderly(w: World, a: Action) {
    forall m, n :: Hands(w, a, m) && n in w.prod.requested ==> OlderIsLogged(w, m, n)
  }

  /** The producer's partition has its numbers in order. */
  ghost predicate InOrder(w: World) {
    |w.logs| > 0 ==> FirstSeenInOrder(w.logs[Partition(w, w.me)], w.me)
  }

  /** Of any two messages handed to Kafka, the older one is in the log. */
  ghost predicate OlderFirst(w: World) {
    forall m, n :: m in w.prod.requested && n in w.prod.requested ==> OlderIsLogged(w, m, n)
  }

  // ---- what a step can do ------------------------------------------------------------

  /** Only a resumed task hands a message over, and then one. */
  lemma OneIsHanded(w: World, a: Action, m: Message, n: Message)
    requires Hands(w, a, m) && Hands(w, a, n)
    ensures m == n
  {
  }

  lemma RequestedGrows(w: World, a: Action)
    requires Step(w, a).Some?
    ensures w.prod.requested <= Step(w, a).value.prod.requested
    ensures !a.Produce? ==> Step(w, a).value.prod == w.prod
    ensures a.Produce? || a.Consume? ==> Step(w, a).value.logs == w.logs
    ensures Step(w, a).value.me == w.me && Step(w, a).value.route == w.route
  {
    if a.Produce? {
      HandedGrows(w.prod, w.logs, a.p);
    }
  }

  /** A step appends one record to one partition, or none. */
  lemma OneIsAppended(w: World, a: Action, p: nat)
    requires Inv(w) && Step(w, a).Some? && p < |w.logs|
    ensures var w' := Step(w, a).value;
      && |w'.logs| == |w.logs|
      && (w'.logs[p] == w.logs[p] || exists r :: Arrives(w, a, r) && w'.logs[p] == w.logs[p] + [r])
  {
    match a
    case Append(m) => assert Arrives(w, a, Good(m));
    case Foreign(m) => assert Arrives(w, a, Good(m));
    case ForeignBroken(_, r) => assert Arrives(w, a, r);
    case _ => RequestedGrows(w, a);
  }

  /** A record that the step can bring. */
  ghost predicate Arrives(w: World, a: Action, r: Record) {
    r.Good? && r.msg.producer == w.me ==> r.msg in w.prod.requested
  }

  lemma StaysLogged(w: World, a: Action, producer: string, s: int)
    requires Inv(w) && Step(w, a).Some? && InLog(w, producer, s)
    ensures InLog(Step(w, a).value, producer, s)
  {
    var m: Message :| Logged(w.logs, m) && m.producer == producer && m.sequence == s;
    match a
    case Append(n) => AppendKeeps(w.logs, Partition(w, n.producer), Good(n));
    case Foreign(n) => AppendKeeps(w.logs, Partition(w, n.producer), Good(n));
    case ForeignBroken(p, r) => AppendKeeps(w.logs, p, r);
    case _ => RequestedGrows(w, a);
  }

  // ---- orderly steps keep the order ------------------------------------------------------

  lemma OrderlyKeepsOlder(w: World, a: Action)
    requires Inv(w) && OlderFirst(w) && Step(w, a).Some? && Orderly(w, a)
    ensures OlderFirst(Step(w, a).value)
  {
    var w' := Step(w, a).value;
    RequestedGrows(w, a);
    forall m, n | m in w'.prod.requested && n in w'.prod.requested ensures OlderIsLogged(w', m, n) {
      if Hands(w, a, m) && Hands(w, a, n) {
        OneIsHanded(w, a, m, n);
      } else if Hands(w, a, n) {
        assert OlderIsLogged(w, n, m);
        StillOlder(w, a, m, n);
      } else {
        assert OlderIsLogged(w, m, n);
        StillOlder(w, a, m, n);
      }
    }
  }

  lemma StillOlder(w: World, a: Action, m: Message, n: Message)
    requires Inv(w) && Step(w, a).Some? && (OlderIsLogged(w, m, n) || OlderIsLogged(w, n, m))
    ensures OlderIsLogged(Step(w, a).value, m, n)
  {
    RequestedGrows(w, a);
    if InLog(w, w.me, n.sequence) { StaysLogged(w, a, w.me, n.sequence); }
    if InLog(w, w.me, m.sequence) { StaysLogged(w, a, w.me, m.sequence); }
  }

  /** A record can join the log if it is not the producer's, if its number has been seen, or if
      nothing larger has. */
  lemma JoinsInOrder(log: seq<Record>, r: Record, producer: string)
    requires FirstSeenInOrder(log, producer)
    requires r.Good? && r.msg.producer == producer && !SeenBy(log, |log|, producer, r.msg.sequence) ==>
      forall t :: SeenBy(log, |log|, producer, t) ==> t <= r.msg.sequence
    ensures FirstSeenInOrder(log + [r], producer)
  {
    var log' := log + [r];
    forall s, t, i: nat, j: nat | s < t && First(log', i, producer, s) && First(log', j, producer, t) ensures i < j {
      SameHolds(log, r, producer);
      if i < |log| && j < |log| {
        assert First(log, i, producer, s) && First(log, j, producer, t);
      } else if j < |log| {
        assert SeenBy(log, |log|, producer, t);
        FirstAtEnd(log, r, i, producer, s);
      }
    }
  }

  lemma FirstAtEnd(log: seq<Record>, r: Record, i: nat, producer: string, s: int)
    requires First(log + [r], i, producer, s) && i >= |log|
    ensures r.Good? && r.msg.producer == producer && r.msg.sequence == s && !SeenBy(log, |log|, producer, s)
  {
    SameHolds(log, r, producer);
  }

  lemma SameHolds(log: seq<Record>, r: Record, producer: string)
    ensures forall i: nat, s :: i < |log| ==> (Holds(log + [r], i, producer, s) <==> Holds(log, i, producer, s))
  {
  }

  lemma OrderlyKeepsOrder(w: World, a: Action)
    requires Inv(w) && OlderFirst(w) && InOrder(w) && Step(w, a).Some? && |w.logs| > 0
    ensures InOrder(Step(w, a).value)
  {
    var w' := Step(w, a).value;
    var p := Partition(w, w.me);
    RequestedGrows(w, a);
    OneIsAppended(w, a, p);
    if w'.logs[p] != w.logs[p] {
      var r :| Arrives(w, a, r) && w'.logs[p] == w.logs[p] + [r];
      forall t | r.Good? && r.msg.producer == w.me && !SeenBy(w.logs[p], |w.logs[p]|, w.me, r.msg.sequence)
               && SeenBy(w.logs[p], |w.logs[p]|, w.me, t)
        ensures t <= r.msg.sequence
      {
        NothingLarger(w, r.msg, t);
      }
      JoinsInOrder(w.logs[p], r, w.me);
    }
  }

  lemma NothingLarger(w: World, m: Message, t: int)
    requires Inv(w) && OlderFirst(w) && m in w.prod.requested && |w.logs| > 0
    requires var log := w.logs[Partition(w, w.me)];
      !SeenBy(log, |log|, w.me, m.sequence) && SeenBy(log, |log|, w.me, t)
    ensures t <= m.sequence
  {
    var p := Partition(w, w.me);
    InItsPartition(w, w.me, m.sequence);
    var i: nat :| i < |w.logs[p]| && Holds(w.logs[p], i, w.me, t);
    var n := w.logs[p][i].msg;
    assert At(w.logs, p, i, n);
    assert OlderIsLogged(w, m, n);
  }

  /** In a world that has always been orderly, order holds so far. */
  ghost predicate SoFar(w: World) {
    Inv(w) && OlderFirst(w) && InOrder(w) && |w.logs| > 0
  }

  lemma OrderlyStep(w: World, a: Action)
    requires SoFar(w) && Step(w, a).Some? && Orderly(w, a)
    ensures SoFar(Step(w, a).value)
  {
    StepInv(w, a);
    OrderlyKeepsOlder(w, a);
    OrderlyKeepsOrder(w, a);
    OneIsAppended(w, a, 0);
  }

  lemma {:induction false} OrderlyRun(w: World, run: seq<Action>)
    requires SoFar(w) && Run(w, run).Some? && Obeys(w, run, Orderly)
    ensures SoFar(Run(w, run).value)
    decreases run
  {
    if run != [] {
      OrderlyStep(w, run[0]);
      OrderlyRun(Step(w, run[0]).value, run[1..]);
    }
  }

  lemma StartsInOrder(w: World)
    requires Init(w) && |w.logs| > 0
    ensures SoFar(w)
  {
    InitInv(w);
  }

  lemma {:induction false} SamePartitions(w: World, run: seq<Action>)
    requires Inv(w) && Run(w, run).Some?
    ensures |Run(w, run).value.logs| == |w.logs|
    decreases run
  {
    if run != [] {
      StepInv(w, run[0]);
      if |w.logs| > 0 {
        OneIsAppended(w, run[0], 0);
      } else {
        RequestedGrows(w, run[0]);
      }
      SamePartitions(Step(w, run[0]).value, run[1..]);
    }
  }

  /** Ordered delivery.  As long as every message is handed to Kafka orderly, the numbers of the
      producer first appear in its partition in increasing order, however often and however late
      the broker appends what it was given. */
  lemma OrderedDelivery(w: World)
    requires ReachableUnder(Orderly, w) && |w.logs| > 0
    ensures FirstSeenInOrder(w.logs[Partition(w, w.me)], w.me)
  {
    OrderlySoFar(w);
  }

  lemma OrderlySoFar(w: World)
    requires ReachableUnder(Orderly, w) && |w.logs| > 0
    ensures SoFar(w)
  {
    var w0 :| Init(w0) && LeadsUnder(Orderly, w0, w);
    var run :| Run(w0, run) == Some(w) && Obeys(w0, run, Orderly);
    InitInv(w0);
    SamePartitions(w0, run);
    StartsInOrder(w0);
    OrderlyRun(w0, run);
  }

  // ---- and only they do --------------------------------------------------------------------

  /** Whatever happens from here on, as long as it is orderly, the order holds. */
  ghost predicate StaysInOrder(w: World) {
    forall w' :: LeadsUnder(Orderly, w, w') ==> InOrder(w')
  }

  lemma TwoFirsts(log: seq<Record>, x: Message, y: Message, producer: string)
    requires x.producer == producer == y.producer && x.sequence < y.sequence
    requires !SeenBy(log, |log|, producer, x.sequence)
    ensures !FirstSeenInOrder(log + [Good(y)] + [Good(x)], producer)
  {
    var log' := log + [Good(y)] + [Good(x)];
    assert Holds(log', |log|, producer, y.sequence);
    var i := FirstExists(log', |log| + 1, producer, y.sequence);
    SameHolds(log, Good(y), producer);
    SameHolds(log + [Good(y)], Good(x), producer);
    assert First(log', |log| + 1, producer, x.sequence);
  }

  /** With the younger of two messages handed to Kafka and the older one not in the log, the broker can
      append the younger one first. */
  lemma YoungerFirst(w: World, x: Message, y: Message)
    requires Inv(w) && |w.logs| > 0 && x in w.prod.requested && y in w.prod.requested
    requires x.sequence < y.sequence && !InLog(w, w.me, x.sequence)
    ensures !StaysInOrder(w)
  {
    var p := Partition(w, w.me);
    InItsPartition(w, w.me, x.sequence);
    TwoFirsts(w.logs[p], x, y, w.me);
    var w1 := w.(logs := KafkaLog.Append(w.logs, p, Good(y)));
    LeadsUnderSelf(Orderly, w);
    LeadsUnderStep(Orderly, w, w, Append(y), w1);
    var w2 := w1.(logs := KafkaLog.Append(w1.logs, p, Good(x)));
    LeadsUnderStep(Orderly, w, w1, Append(x), w2);
    assert w2.logs[p] == w.logs[p] + [Good(y)] + [Good(x)];
    assert !InOrder(w2);
  }

  /** The condition is exact.  After an orderly run, a step keeps the order for good (in every orderly
      continuation) if and only if it is orderly itself. */
  lemma OrderIffOrderly(w: World, a: Action, w': World)
    requires ReachableUnder(Orderly, w) && |w.logs| > 0 && Step(w, a) == Some(w')
    ensures StaysInOrder(w') <==> Orderly(w, a)
  {
    OrderlySoFar(w);
    if Orderly(w, a) {
      OrderlyStep(w, a);
      forall w'' | LeadsUnder(Orderly, w', w'') ensures InOrder(w'') {
        var run :| Run(w', run) == Some(w'') && Obeys(w', run, Orderly);
        OrderlyRun(w', run);
      }
    } else {
      var m, n :| Hands(w, a, m) && n in w.prod.requested && !OlderIsLogged(w, m, n);
      StepInv(w, a);
      RequestedGrows(w, a);
      if n.sequence < m.sequence && !InLog(w, w.me, n.sequence) {
        YoungerFirst(w', n, m);
      } else {
        YoungerFirst(w', m, n);
      }
    }
  }

  // ---- what follows -------------------------------------------------------------------------

  /** A guard that the producer can check: hand a message over only if everything handed over before
      is older and has been marked sent. */
  ghost predicate Guarded(w: World, a: Action) {
    forall m, n :: Hands(w, a, m) && n in w.prod.requested ==> n.sequence < m.sequence && n in w.prod.db.marked
  }

  lemma GuardedIsOrderly(w: World, a: Action)
    requires Inv(w) && Guarded(w, a)
    ensures Orderly(w, a)
  {
    forall m, n | Hands(w, a, m) && n in w.prod.requested ensures OlderIsLogged(w, m, n) {
      assert n.sequence < m.sequence;
      MarkedIsLogged(w, n);
    }
  }

  lemma MarkedIsLogged(w: World, n: Message)
    requires Inv(w) && n in w.prod.db.marked && n in w.prod.requested
    ensures InLog(w, w.me, n.sequence)
  {
    assert P.DbInv(w.prod.db, w.prod, w.logs);
    assert Logged(w.logs, n) && n.producer == w.me;
  }

  /** So in an orderly run the arbiter is right about the producer, however far the consumer lags: with
      any positive watermark ever served and an answered gap query, what it reports missing is in the
      log only if its row was deleted. */
  lemma SoundIfOrderly(w: World, url: string, sent: set<int>, watermark: int, threshold: real)
    requires ReachableUnder(Orderly, w) && |w.logs| > 0
    requires (w.me, watermark) in w.cons.served && watermark > 0
    requires Eligible(sent, Some(watermark)) != {} && Answered(Eligible(sent, Some(watermark)))
    ensures var a := AuditNow(w, url, w.me, sent, Some(watermark), true, threshold);
      a.Some? && forall s :: s in a.value.missing ==> (InLog(w, w.me, s) <==> Deleted(w, w.me, s))
  {
    UnderIsReachable(Orderly, w);
    OrderedDelivery(w);
    ReportedUnderLag(w, url, w.me, sent, watermark, threshold);
  }
}
