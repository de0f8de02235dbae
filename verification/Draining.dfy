/** The consumer can always catch up, unless a record that it cannot handle is in its way. */
module Draining {
  import opened Messages
  import opened KafkaLog
  import opened Delivery
  import opened ConsumeLoop
  import opened BufferHistory
  import P = ProducerSystem
  import C = ConsumerSystem

  // ---- the consumer can always catch up ----------------------------------------------

  ghost predicate HasMalformed(logs: Logs) {
    exists p, i :: 0 <= p < |logs| && 0 <= i < |logs[p]| && logs[p][i].Malformed?
  }

  /** Connected at the committed offsets, with everything polled. */
  ghost predicate Catching(s: C.Consumer, logs: Logs) {
    && s.session.Some? && s.session.value.pc.Polling?
    && s.session.value.next == s.offsets && s.session.value.fetch == C.Lens(logs)
  }

  lemma {:induction false} LagDrops(ends: seq<nat>, positions: seq<nat>, p: nat)
    requires |ends| == |positions| && p < |ends| && positions[p] < ends[p]
    ensures C.TotalLag(ends, positions[p := positions[p] + 1]) == C.TotalLag(ends, positions) - 1
  {
    var moved, q := positions[p := positions[p] + 1], |ends| - 1;
    if p == q {
      assert moved[..q] == positions[..q];
    } else {
      LagDrops(ends[..q], positions[..q], p);
      assert moved[..q] == positions[..q][p := positions[p] + 1];
    }
  }

  /** One more record is handled. */
  lemma CatchOne(s: C.Consumer, logs: Logs, p: nat) returns (s': C.Consumer)
    requires C.Inv(s, logs) && Catching(s, logs) && !HasMalformed(logs) && p < |logs| && p < |s.offsets| && s.offsets[p] < |logs[p]|
    ensures Reaches(s, logs, s') && Catching(s', logs) && C.Inv(s', logs)
    ensures s'.offsets == s.offsets[p := s.offsets[p] + 1] && s'.store.pruned == s.store.pruned
  {
    assert !logs[p][s.offsets[p]].Malformed?;
    var r := logs[p][s.offsets[p]];
    ReadyToHandle(s, logs, p);
    ToPassed(s, logs, p, r);
    s' := Passed(s, p, r);
    ReachesKeepsInv(s, logs, s');
    StillCatching(s, logs, p, r);
  }

  lemma StillCatching(s: C.Consumer, logs: Logs, p: nat, r: Record)
    requires Catching(s, logs) && Ready(s, logs, p)
    ensures var s' := Passed(s, p, r);
      Catching(s', logs) && s'.offsets == s.offsets[p := s.offsets[p] + 1] && s'.store.pruned == s.store.pruned
  {
  }

  lemma ReadyToHandle(s: C.Consumer, logs: Logs, p: nat)
    requires C.Inv(s, logs) && Catching(s, logs) && p < |logs| && p < |s.offsets| && s.offsets[p] < |logs[p]|
    requires !logs[p][s.offsets[p]].Malformed?
    ensures Ready(s, logs, p)
  {
  }

  lemma SomeBehind(s: C.Consumer, logs: Logs) returns (p: nat)
    requires C.Inv(s, logs) && s.offsets != C.Lens(logs)
    ensures p < |logs| == |s.offsets| && s.offsets[p] < |logs[p]|
  {
    assert |s.offsets| == |logs|;
    assert (forall q :: 0 <= q < |logs| ==> s.offsets[q] == C.Lens(logs)[q]) ==> s.offsets == C.Lens(logs);
    p :| p < |logs| && s.offsets[p] != C.Lens(logs)[p];
    assert s.offsets[p] <= s.durable.prefix[p] <= C.Lens(logs)[p];
  }

  /** Record after record, the next one that is not yet handled is saved and its offset committed. */
  lemma {:induction false} CatchUp(s: C.Consumer, logs: Logs) returns (s': C.Consumer)
    requires C.Inv(s, logs) && Catching(s, logs) && !HasMalformed(logs)
    ensures Reaches(s, logs, s') && s'.offsets == C.Lens(logs) && s'.store.pruned == s.store.pruned
    decreases TotalBehind(s, logs)
  {
    if s.offsets == C.Lens(logs) {
      ReachesSelf(s, logs);
      s' := s;
    } else {
      var p := SomeBehind(s, logs);
      var s1 := CatchOne(s, logs, p);
      BehindDrops(s, s1, logs, p);
      s' := CatchUp(s1, logs);
      ReachesTrans(s, logs, s1, s');
    }
  }

  lemma BehindDrops(s: C.Consumer, s1: C.Consumer, logs: Logs, p: nat)
    requires |s.offsets| == |logs| && p < |logs| && s.offsets[p] < |logs[p]|
    requires s1.offsets == s.offsets[p := s.offsets[p] + 1]
    ensures TotalBehind(s1, logs) < TotalBehind(s, logs)
  {
    LagDrops(C.Lens(logs), s.offsets, p);
  }

  /** The records behind which the committed offsets are. */
  ghost function TotalBehind(s: C.Consumer, logs: Logs): nat {
    if |s.offsets| == |logs| then C.TotalLag(C.Lens(logs), s.offsets) else 0
  }

  /** From any state, the consumer can come to have read everything. */
  lemma Drain(s: C.Consumer, logs: Logs) returns (s': C.Consumer)
    requires C.Inv(s, logs) && !HasMalformed(logs)
    ensures Reaches(s, logs, s') && s'.offsets == C.Lens(logs) && s'.store.pruned == s.store.pruned
  {
    ReachesSelf(s, logs);
    var s1 := s.(session := Some(C.Session(s.offsets, s.offsets, C.Polling)));
    ReachesStep(s, logs, s, C.Connect);
    var s2 := s.(session := Some(C.Session(s.offsets, C.Lens(logs), C.Polling)));
    assert C.Step(s1, logs, C.Poll(C.Lens(logs))) == Some(s2);
    ReachesStep(s, logs, s1, C.Poll(C.Lens(logs)));
    ReachesKeepsInv(s, logs, s2);
    s' := CatchUp(s2, logs);
    ReachesTrans(s, logs, s2, s');
  }

  // ---- downstream of the producer ------------------------------------------------------

  /** The broker, another producer or the consumer moves, and not the producer. */
  ghost predicate Downstream(w: World, a: Action) {
    !a.Produce?
  }

  lemma {:induction false} ConsumerRuns(w: World, run: seq<C.Action>)
    requires Steps(w.cons, w.logs, run).Some?
    ensures LeadsUnder(Downstream, w, w.(cons := Steps(w.cons, w.logs, run).value))
  {
    if run == [] {
      LeadsUnderSelf(Downstream, w);
    } else {
      var shorter, a := run[..|run| - 1], run[|run| - 1];
      ConsumerRuns(w, shorter);
      var w1 := w.(cons := Steps(w.cons, w.logs, shorter).value);
      LeadsUnderStep(Downstream, w, w1, Consume(a), w.(cons := Steps(w.cons, w.logs, run).value));
    }
  }

  lemma {:induction false} DownstreamKeeps(w: World, run: seq<Action>)
    requires Run(w, run).Some? && Obeys(w, run, Downstream)
    ensures var w' := Run(w, run).value;
      && w'.prod == w.prod && w'.me == w.me && |w'.logs| == |w.logs|
      && (HasMalformed(w.logs) ==> HasMalformed(w'.logs))
    decreases run
  {
    if run != [] {
      if HasMalformed(w.logs) {
        StillMalformed(w, run[0]);
      }
      DownstreamKeeps(Step(w, run[0]).value, run[1..]);
    }
  }

  lemma StillMalformed(w: World, a: Action)
    requires Step(w, a).Some? && HasMalformed(w.logs)
    ensures HasMalformed(Step(w, a).value.logs)
  {
    var p, i :| 0 <= p < |w.logs| && 0 <= i < |w.logs[p]| && w.logs[p][i].Malformed?;
    var logs': Logs := Step(w, a).value.logs;
    assert i < |logs'[p]| && logs'[p][i].Malformed?;
  }

  lemma Joined(w: World, a: Action, w1: World, w2: World)
    requires Reachable(w) && Step(w, a) == Some(w1) && Downstream(w, a) && LeadsUnder(Downstream, w1, w2)
    ensures LeadsUnder(Downstream, w, w2) && Reachable(w2)
  {
    var run :| Run(w1, run) == Some(w2) && Obeys(w1, run, Downstream);
    var all := [a] + run;
    assert all[0] == a && all[1..] == run;
    assert Run(w, all) == Some(w2) && Obeys(w, all, Downstream);
    ReachableRun(w, all, w2);
  }

  /** So the world can come to one in which everything is read, with the ids that are pruned for good
      pruned and no others, and nothing but the consumer has changed. */
  lemma CanBeRead(w: World) returns (w': World)
    requires Delivery.Inv(w) && !HasMalformed(w.logs)
    ensures LeadsUnder(Downstream, w, w') && w' == w.(cons := w'.cons)
    ensures w'.cons.offsets == C.Lens(w.logs) && w'.cons.store.pruned == w.cons.durable.pruned
  {
    var s0 := AfterCrash(w.cons, w.logs);
    var s := Drain(s0, w.logs);
    ReachesTrans(w.cons, w.logs, s0, s);
    var run :| Steps(w.cons, w.logs, run) == Some(s);
    ConsumerRuns(w, run);
    w' := w.(cons := s);
  }

  lemma AfterCrash(s: C.Consumer, logs: Logs) returns (s': C.Consumer)
    requires C.Inv(s, logs)
    ensures Reaches(s, logs, s') && C.Inv(s', logs) && s'.store == s.durable
  {
    ReachesSelf(s, logs);
    ReachesStep(s, logs, s, C.Crash);
    s' := C.Step(s, logs, C.Crash).value;
    ReachesKeepsInv(s, logs, s');
  }

  // ---- what stays pruned ---------------------------------------------------------------

  lemma StepPrunes(s: C.Consumer, logs: Logs, a: C.Action)
    requires s.durable.pruned <= s.store.pruned && C.Step(s, logs, a).Some?
    ensures var s' := C.Step(s, logs, a).value;
      s.durable.pruned <= s'.durable.pruned <= s'.store.pruned
  {
  }

  lemma {:induction false} RunPrunes(w: World, run: seq<Action>)
    requires w.cons.durable.pruned <= w.cons.store.pruned && Run(w, run).Some?
    ensures var w' := Run(w, run).value;
      w.cons.durable.pruned <= w'.cons.durable.pruned <= w'.cons.store.pruned
    decreases run
  {
    if run != [] {
      if run[0].Consume? {
        StepPrunes(w.cons, w.logs, run[0].c);
      }
      RunPrunes(Step(w, run[0]).value, run[1..]);
    }
  }

  lemma PrunedForGood(w: World)
    requires Reachable(w)
    ensures w.cons.durable.pruned <= w.cons.store.pruned
  {
    var w0, run :| Init(w0) && Run(w0, run) == Some(w);
    RunPrunes(w0, run);
  }

  // ---- a record that is passed without a row -----------------------------------------------

  /** The topic's only record has a null where the table has a NOT NULL column: the consumer passes it,
      commits its offset, and has no row for it. */
  lemma PassedWithoutRow() returns (w: World)
    ensures Reachable(w) && w.logs == [[Incomplete(true)]]
    ensures w.cons.offsets == C.Lens(w.logs) && C.Lens(w.logs) == [1]
    ensures w.cons.store.rows == map[] && w.cons.store.pruned == {}
  {
    var w0 := EmptyWorld();
    var w1 := w0.(logs := [[Incomplete(true)]]);
    assert KafkaLog.Append(w0.logs, 0, Incomplete(true)) == [[Incomplete(true)]] by {
      assert [] + [Incomplete(true)] == [Incomplete(true)];
    }
    ReachableStep(w0, ForeignBroken(0, Incomplete(true)), w1);
    ReachableInv(w1);
    w := CanBeRead(w1);
    LeadsToReachable(w1, w);
    assert C.Lens(w.logs) == [1];
    NoRows(w);
  }

  lemma EmptyWorld() returns (w: World)
    ensures Reachable(w) && w.logs == [[]] && w.cons.durable.pruned == {}
  {
    w := World("p", _ => 0, [[]], {}, P.Producer(10, EMPTY, EMPTY, P.DOWN, map[], 0.0, {}, {}, {}),
               C.Consumer(C.Store(map[], C.Zeros(1), {}), C.Store(map[], C.Zeros(1), {}), None, C.Zeros(1), {}, map[], {}, 0));
    assert Init(w) && Run(w, []) == Some(w);
  }

  lemma LeadsToReachable(w: World, w': World)
    requires Reachable(w) && LeadsUnder(Downstream, w, w')
    ensures Reachable(w')
  {
    var run :| Run(w, run) == Some(w') && Obeys(w, run, Downstream);
    ReachableRun(w, run, w');
  }

  lemma NoRows(w: World)
    requires Reachable(w) && forall p, i :: 0 <= p < |w.logs| && 0 <= i < |w.logs[p]| ==> !w.logs[p][i].Good?
    ensures w.cons.store.rows == map[]
  {
    ReachableInv(w);
    assert forall id :: id !in w.cons.store.rows;
  }
}
