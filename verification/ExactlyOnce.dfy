/** When does the consumer's table end up with exactly the accepted messages?  send_message ignores
    what add returned, so the answer depends on whether a message was handed to Kafka whose add did
    not return True. */
module ExactlyOnce {
  import opened Messages
  import opened BufferTable
  import opened BufferHistory
  import opened KafkaLog
  import opened Delivery
  import opened DeliveryTheorems
  import opened Draining
  import P = ProducerSystem
  import C = ConsumerSystem

  /** The producer has nothing waiting and evicted nothing, no pruning has been committed, and the
      consumer can handle every record. */
  ghost predicate Settled(w: World) {
    && Pending(w.prod.db.rows) == [] && w.prod.db.evicted == {} && w.cons.durable.pruned == {}
    && |w.logs| > 0 && !HasMalformed(w.logs)
  }

  /** Whatever the broker, other producers and the consumer still do: once everything is read, the
      table holds exactly the accepted messages. */
  ghost predicate StoresTheAccepted(w: World) {
    forall w' :: LeadsUnder(Downstream, w, w') && Quiescent(w') ==> Stored(w') == w'.prod.acked
  }

  /** Exactly-once effect.  From any reachable world, as long as the producer stands still, the table
      is bound to end up with exactly the accepted messages if and only if every message that was
      handed to Kafka had its add return True (or it can never come to rest: something waits, was
      evicted or pruned, or cannot be handled). */
  lemma ExactlyOnceEffect(w: World)
    requires Reachable(w)
    ensures StoresTheAccepted(w) <==> (Settled(w) ==> w.prod.requested <= w.prod.acked)
  {
    if !Settled(w) {
      NothingUnaccepted(w);
    } else if w.prod.requested <= w.prod.acked {
      OnlyTheAccepted(w);
    } else {
      var m :| m in w.prod.requested && m !in w.prod.acked;
      var w' := StoredUnaccepted(w, m);
    }
  }

  lemma NothingUnaccepted(w: World)
    requires Reachable(w) && !Settled(w)
    ensures StoresTheAccepted(w)
  {
    forall w' | LeadsUnder(Downstream, w, w') && Quiescent(w') ensures Stored(w') == w'.prod.acked {
      var run :| Run(w, run) == Some(w') && Obeys(w, run, Downstream);
      DownstreamKeeps(w, run);
      PrunedForGood(w);
      RunPrunes(w, run);
      ReachableRun(w, run, w');
      ReachableInv(w');
      if HasMalformed(w.logs) {
        StuckOnMalformed(w');
      } else {
        NoTopicNothingStored(w');
      }
    }
  }

  lemma NoTopicNothingStored(w: World)
    requires Reachable(w) && Quiescent(w) && |w.logs| == 0
    ensures Stored(w) == w.prod.acked == {}
  {
    StoredIsLogged(w);
    assert forall m :: !Logged(w.logs, m);
  }

  lemma StuckOnMalformed(w: World)
    requires Delivery.Inv(w) && HasMalformed(w.logs)
    ensures w.cons.offsets != C.Lens(w.logs)
  {
    var p, i :| 0 <= p < |w.logs| && 0 <= i < |w.logs[p]| && w.logs[p][i].Malformed?;
    assert w.cons.offsets[p] <= w.cons.durable.prefix[p] <= i;
    assert C.Lens(w.logs)[p] == |w.logs[p]|;
  }

  lemma OnlyTheAccepted(w: World)
    requires Reachable(w) && w.prod.requested <= w.prod.acked
    ensures StoresTheAccepted(w)
  {
    forall w' | LeadsUnder(Downstream, w, w') && Quiescent(w') ensures Stored(w') == w'.prod.acked {
      var run :| Run(w, run) == Some(w') && Obeys(w, run, Downstream);
      DownstreamKeeps(w, run);
      ReachableRun(w, run, w');
      ReachableInv(w');
      StoredIsLogged(w');
      StoredIsRequested(w');
    }
  }

  lemma StoredIsRequested(w: World)
    requires Reachable(w) && Quiescent(w)
    ensures Stored(w) <= w.prod.requested
  {
    ReachableInv(w);
    StoredIsLogged(w);
    forall m | m in Stored(w) ensures m in w.prod.requested {
      var p: nat, i: nat :| At(w.logs, p, i, m);
    }
  }

  /** A message handed to Kafka without its add having returned True can end up in the table: the
      broker appends it and the consumer reads on. */
  lemma StoredUnaccepted(w: World, m: Message) returns (w': World)
    requires Reachable(w) && Settled(w)
    requires m in w.prod.requested && m !in w.prod.acked
    ensures LeadsUnder(Downstream, w, w') && Reachable(w') && Quiescent(w') && w'.prod == w.prod
    ensures m in Stored(w') && m !in w'.prod.acked
  {
    var w1 := Appended(w, m);
    ReachableInv(w1);
    w' := CanBeRead(w1);
    Joined(w, Append(m), w1, w');
    StoredIsLogged(w');
  }

  lemma Appended(w: World, m: Message) returns (w1: World)
    requires Reachable(w) && |w.logs| > 0 && !HasMalformed(w.logs) && m in w.prod.requested
    ensures Step(w, Append(m)) == Some(w1) && Reachable(w1) && !HasMalformed(w1.logs)
    ensures w1.prod == w.prod && w1.cons == w.cons && w1.me == w.me
    ensures m.producer == w.me && Logged(w1.logs, m)
  {
    ReachableInv(w);
    w1 := Step(w, Append(m)).value;
    ReachableStep(w, Append(m), w1);
    AppendKeeps(w.logs, Partition(w, m.producer), Good(m));
  }

  // ---- such a message exists ------------------------------------------------------------

  const REFUSED := Message("1", 1, "p", "", "")

  ghost function Start(): World {
    World("p", _ => 0, [[]], {}, P.Producer(10, EMPTY, EMPTY, P.DOWN, map[], 0.0, {}, {}, {}),
          C.Consumer(C.Store(map[], C.Zeros(1), {}), C.Store(map[], C.Zeros(1), {}), None, C.Zeros(1), {}, map[], {}, 0))
  }

  lemma Up() returns (w: World)
    ensures Reachable(w) && w == Start().(prod := Start().prod.(conn := P.Conn(true, true, Some(0))))
  {
    var w0 := Start();
    assert Init(w0) && Run(w0, []) == Some(w0);
    var s1 := P.Move(w0.prod, 0, P.Creating);
    ProducerSteps(w0, P.StartClose(0, true), s1);
    ReachableStep(w0, Produce(P.StartClose(0, true)), w0.(prod := s1));
    var s2 := P.End(s1.(conn := P.Conn(true, true, Some(0))), 0);
    TaskSteps(w0.(prod := s1), 0, P.Opened(0), s2);
    w := w0.(prod := s2);
    ReachableStep(w0.(prod := s1), Produce(P.Resume(0, P.Opened(0))), w);
  }

  /** The INSERT of the only message fails, and the message is sent all the same. */
  lemma SentThoughRefused() returns (w: World)
    ensures Reachable(w) && Settled(w)
    ensures REFUSED in w.prod.requested && w.prod.acked == {}
  {
    var w0 := Up();
    assert {} + {REFUSED} == {REFUSED};
    var s1 := P.Move(w0.prod, 0, P.Count(REFUSED)).(handed := {REFUSED});
    ProducerSteps(w0, P.StartAdd(0, REFUSED), s1);
    var w1 := w0.(prod := s1, known := {REFUSED});
    ReachableStep(w0, Produce(P.StartAdd(0, REFUSED)), w1);
    w := InsertFails(w1);
  }

  lemma InsertFails(w: World) returns (w': World)
    requires Reachable(w) && 0 in w.prod.tasks && w.prod.tasks[0] == P.Count(REFUSED)
    requires w.prod.conn == P.Conn(true, true, Some(0)) && w.prod.db == EMPTY && w.prod.capacity == 10
    ensures Reachable(w') && w'.prod.db == EMPTY && w'.prod.acked == w.prod.acked
    ensures REFUSED in w'.prod.requested && w'.cons == w.cons && w'.logs == w.logs
  {
    var s1 := P.Move(w.prod, 0, P.Insert(REFUSED));
    TaskSteps(w, 0, P.Done, s1);
    ReachableStep(w, Produce(P.Resume(0, P.Done)), w.(prod := s1));
    var s2 := P.AfterAdd(s1, 0, REFUSED);
    TaskSteps(w.(prod := s1), 0, P.Failed, s2);
    w' := w.(prod := s2);
    ReachableStep(w.(prod := s1), Produce(P.Resume(0, P.Failed)), w');
  }

  /** So there is a reachable world in which everything has been delivered and consumed, and the
      table holds a message that was never accepted. */
  lemma StoredIsNotAccepted() returns (w: World)
    ensures Reachable(w) && Quiescent(w)
    ensures w.prod.acked == {} && REFUSED in Stored(w)
  {
    var w0 := SentThoughRefused();
    w := StoredUnaccepted(w0, REFUSED);
  }
}
