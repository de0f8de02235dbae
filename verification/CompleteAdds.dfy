/** Which runs accept every message?  Each message gets one add, so an add that is cut off (by a
    failing statement, a cancellation or a crash) is the end of its message's chances. */
module CompleteAdds {
  import opened Messages
  import opened KafkaLog
  import opened Delivery
  import opened DeliveryTheorems
  import opened ProducerCapacity
  import P = ProducerSystem

  /** The step cuts an add off.  A failing COUNT does not: add goes on with 0. */
  ghost predicate CutsAdd(s: P.Producer, a: P.Action) {
    match a
    case Resume(t, wake) => wake.Failed? && t in s.tasks && P.Adding(s.tasks[t]) && !s.tasks[t].Count?
    case Cancel(t) => t in s.tasks && P.Adding(s.tasks[t])
    case Crash => !NoAdd(s)
    case _ => false
  }

  ghost predicate Unbroken(w: World, a: Action) {
    a.Produce? ==> !CutsAdd(w.prod, a.p)
  }

  ghost predicate Adds(s: P.Producer, t: nat, m: Message) {
    t in s.tasks && P.Adding(s.tasks[t]) && s.tasks[t].m == m
  }

  ghost predicate BeingAdded(s: P.Producer, m: Message) {
    exists t :: Adds(s, t, m)
  }

  /** A message is being added by one task at most, and only before it is accepted. */
  ghost predicate OneChance(s: P.Producer) {
    && s.acked <= s.handed
    && (forall t, m :: Adds(s, t, m) ==> m in s.handed && m !in s.acked)
    && (forall t, u, m :: Adds(s, t, m) && Adds(s, u, m) ==> t == u)
  }

  /** The message was handed to send_message, not accepted, and has no add under way. */
  ghost predicate Dropped(s: P.Producer, m: Message) {
    m in s.handed && m !in s.acked && !BeingAdded(s, m)
  }

  // ---- what a step does to the adds under way ---------------------------------------

  ghost predicate SameAdds(s: P.Producer, s': P.Producer) {
    s'.handed == s.handed && s'.acked == s.acked && forall u, m :: Adds(s', u, m) <==> Adds(s, u, m)
  }

  /** The adds of the tasks in `ts` are gone. */
  ghost predicate FewerAdds(s: P.Producer, s': P.Producer, ts: set<nat>) {
    s'.handed == s.handed && forall u, m :: Adds(s', u, m) <==> Adds(s, u, m) && u !in ts
  }

  /** A resumed add goes on, or is accepted, or is cut off. */
  lemma ResumedAdds(s: P.Producer, logs: Logs, t: nat, wake: P.Wake)
    requires t in s.tasks && P.Woken(s, logs, t, s.tasks[t], wake).Some?
    ensures var s' := P.Woken(s, logs, t, s.tasks[t], wake).value;
      if CutsAdd(s, P.Resume(t, wake)) then FewerAdds(s, s', {t}) && s'.acked == s.acked
      else if s.tasks[t].CommitAdd? then FewerAdds(s, s', {t}) && s'.acked == s.acked + {s.tasks[t].m}
      else SameAdds(s, s')
  {
    var s' := P.Woken(s, logs, t, s.tasks[t], wake).value;
    Adders(s, logs, t, wake);
    AddGoesOn(s, logs, t, wake);
    forall u, m | u != t ensures Adds(s', u, m) <==> Adds(s, u, m) {
      OthersStay(s, logs, t, wake, u);
    }
  }

  lemma OthersStay(s: P.Producer, logs: Logs, t: nat, wake: P.Wake, u: nat)
    requires t in s.tasks && P.Woken(s, logs, t, s.tasks[t], wake).Some? && u != t
    ensures var s' := P.Woken(s, logs, t, s.tasks[t], wake).value; u in s'.tasks <==> u in s.tasks
  {
  }

  lemma AddGoesOn(s: P.Producer, logs: Logs, t: nat, wake: P.Wake)
    requires t in s.tasks && P.Woken(s, logs, t, s.tasks[t], wake).Some?
    ensures var s' := P.Woken(s, logs, t, s.tasks[t], wake).value;
      && s'.handed == s.handed
      && s'.acked == s.acked + (if s.tasks[t].CommitAdd? && !wake.Failed? then {s.tasks[t].m} else {})
      && ((t in s'.tasks && P.Adding(s'.tasks[t])) <==>
           (P.BeforeInsert(s.tasks[t]) && (s.tasks[t].Count? || !wake.Failed?)))
      && (t in s'.tasks && P.Adding(s'.tasks[t]) ==> s'.tasks[t].m == s.tasks[t].m)
  {
  }

  // ---- and so to the messages ---------------------------------------------------------

  /** A cut add drops its message. */
  lemma CutDrops(s: P.Producer, s': P.Producer, ts: set<nat>, t: nat, m: Message)
    requires OneChance(s) && FewerAdds(s, s', ts) && s'.acked == s.acked && Adds(s, t, m) && t in ts
    ensures Dropped(s', m)
  {
  }

  lemma FewerKeep(s: P.Producer, s': P.Producer, ts: set<nat>)
    requires OneChance(s) && FewerAdds(s, s', ts) && s'.acked == s.acked
    ensures OneChance(s') && forall m :: Dropped(s, m) ==> Dropped(s', m)
  {
    forall m | Dropped(s, m) ensures Dropped(s', m) {
      assert forall u :: Adds(s', u, m) ==> Adds(s, u, m);
    }
  }

  lemma SameKeep(s: P.Producer, s': P.Producer)
    requires OneChance(s) && SameAdds(s, s')
    ensures OneChance(s') && forall m :: Dropped(s, m) <==> Dropped(s', m)
  {
    forall m ensures BeingAdded(s, m) <==> BeingAdded(s', m) {
      assert forall u :: Adds(s', u, m) <==> Adds(s, u, m);
    }
  }

  /** An accepted add drops nothing. */
  lemma AcceptKeeps(s: P.Producer, s': P.Producer, t: nat, m: Message)
    requires OneChance(s) && FewerAdds(s, s', {t}) && Adds(s, t, m) && s'.acked == s.acked + {m}
    ensures OneChance(s') && forall n :: Dropped(s, n) <==> Dropped(s', n)
  {
    forall n | n != m ensures BeingAdded(s, n) <==> BeingAdded(s', n) {
      if u :| Adds(s, u, n) {
        assert Adds(s', u, n);
      }
      assert forall u :: Adds(s', u, n) ==> Adds(s, u, n);
    }
  }

  lemma StartKeeps(s: P.Producer, logs: Logs, t: nat, m: Message)
    requires OneChance(s) && P.Step(s, logs, P.StartAdd(t, m)).Some?
    ensures var s' := P.Step(s, logs, P.StartAdd(t, m)).value;
      OneChance(s') && forall n :: Dropped(s, n) <==> Dropped(s', n)
  {
    var s' := P.Step(s, logs, P.StartAdd(t, m)).value;
    assert forall u, n :: Adds(s', u, n) <==> Adds(s, u, n) || (u == t && n == m);
    assert Adds(s', t, m);
    forall n | n != m ensures BeingAdded(s, n) <==> BeingAdded(s', n) {
      assert forall u :: Adds(s', u, n) <==> Adds(s, u, n);
    }
  }

  /** What has been dropped stays dropped; a step drops a message if and only if it cuts an add off. */
  lemma StepDrops(s: P.Producer, logs: Logs, a: P.Action)
    requires OneChance(s) && P.Step(s, logs, a).Some?
    ensures var s' := P.Step(s, logs, a).value;
      && OneChance(s')
      && (forall m :: Dropped(s, m) ==> Dropped(s', m))
      && (CutsAdd(s, a) <==> exists m :: Dropped(s', m) && !Dropped(s, m))
  {
    var s' := P.Step(s, logs, a).value;
    match a
    case StartAdd(t, m) => StartKeeps(s, logs, t, m);
    case Resume(t, wake) => ResumeDrops(s, logs, t, wake);
    case Cancel(t) => CutOff(s, s', {t}, a);
    case Crash => CutOff(s, s', s.tasks.Keys, a);
    case _ => SameKeep(s, s');
  }

  lemma CutOff(s: P.Producer, s': P.Producer, ts: set<nat>, a: P.Action)
    requires OneChance(s) && FewerAdds(s, s', ts) && s'.acked == s.acked
    requires CutsAdd(s, a) <==> exists t :: t in ts && t in s.tasks && P.Adding(s.tasks[t])
    ensures OneChance(s') && (forall m :: Dropped(s, m) ==> Dropped(s', m))
    ensures CutsAdd(s, a) <==> exists m :: Dropped(s', m) && !Dropped(s, m)
  {
    FewerKeep(s, s', ts);
    if CutsAdd(s, a) {
      var t :| t in ts && t in s.tasks && P.Adding(s.tasks[t]);
      assert Adds(s, t, s.tasks[t].m);
      CutDrops(s, s', ts, t, s.tasks[t].m);
    } else {
      SameKeep(s, s');
    }
  }

  lemma ResumeDrops(s: P.Producer, logs: Logs, t: nat, wake: P.Wake)
    requires OneChance(s) && t in s.tasks && P.Woken(s, logs, t, s.tasks[t], wake).Some?
    ensures var s' := P.Woken(s, logs, t, s.tasks[t], wake).value;
      && OneChance(s')
      && (forall m :: Dropped(s, m) ==> Dropped(s', m))
      && (CutsAdd(s, P.Resume(t, wake)) <==> exists m :: Dropped(s', m) && !Dropped(s, m))
  {
    var s' := P.Woken(s, logs, t, s.tasks[t], wake).value;
    ResumedAdds(s, logs, t, wake);
    if CutsAdd(s, P.Resume(t, wake)) {
      CutOff(s, s', {t}, P.Resume(t, wake));
    } else if s.tasks[t].CommitAdd? {
      assert Adds(s, t, s.tasks[t].m);
      AcceptKeeps(s, s', t, s.tasks[t].m);
    } else {
      SameKeep(s, s');
    }
  }

  // ---- whole runs ---------------------------------------------------------------------

  ghost predicate NothingDropped(s: P.Producer) {
    forall m :: !Dropped(s, m)
  }

  lemma {:induction false} RunDrops(w: World, run: seq<Action>)
    requires OneChance(w.prod) && Run(w, run).Some?
    ensures OneChance(Run(w, run).value.prod)
    ensures forall m :: Dropped(w.prod, m) ==> Dropped(Run(w, run).value.prod, m)
    ensures NothingDropped(w.prod) ==> (NothingDropped(Run(w, run).value.prod) <==> Obeys(w, run, Unbroken))
    decreases run
  {
    if run != [] {
      var next := Step(w, run[0]).value;
      if run[0].Produce? {
        StepDrops(w.prod, w.logs, run[0].p);
      }
      RunDrops(next, run[1..]);
    }
  }

  /** Once no add is under way, every message handed to send_message has been accepted if and only
      if no add of the run was cut off. */
  lemma AllAcceptedIffUnbroken(w0: World, run: seq<Action>, w: World)
    requires Init(w0) && Run(w0, run) == Some(w) && NoAdd(w.prod)
    ensures w.prod.acked == w.prod.handed <==> Obeys(w0, run, Unbroken)
  {
    RunDrops(w0, run);
    assert forall m :: Dropped(w.prod, m) <==> m in w.prod.handed && m !in w.prod.acked;
  }

  /** And then, when everything is delivered and consumed, the consumer's table holds exactly the
      messages that were handed to send_message. */
  lemma EverythingIsStored(w: World)
    requires ReachableUnder(Unbroken, w) && Quiescent(w) && NoAdd(w.prod)
    ensures Stored(w) == w.prod.handed == w.prod.acked
  {
    UnderIsReachable(Unbroken, w);
    var w0 :| Init(w0) && LeadsUnder(Unbroken, w0, w);
    var run :| Run(w0, run) == Some(w) && Obeys(w0, run, Unbroken);
    AllAcceptedIffUnbroken(w0, run, w);
    StoredIsLogged(w);
  }
}
