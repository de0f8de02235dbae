/** The whole pipeline: one producer process, the topic, one consumer process, and other
    producers that write to the same topic.  A run is a list of actions from an initial world;
    every theorem here holds after every run. */
module Delivery {
  import opened Messages
  import opened KafkaLog
  import P = ProducerSystem
  import C = ConsumerSystem

  /** `me` is the producer under study, `route` the partitioner (records are keyed by producer id),
      `known` every message that exists anywhere. */
  datatype World = World(me: string, route: string -> nat, logs: Logs, known: set<Message>,
                         prod: P.Producer, cons: C.Consumer)

  datatype Action =
    | Produce(p: P.Action)
    | Append(m: Message)             // the broker appends a message it was asked to, now or again
    | Foreign(m: Message)            // another producer's record arrives
    | ForeignBroken(partition: nat, record: Record)  // or one that cannot have a row
    | Consume(c: C.Action)

  ghost function Partition(w: World, key: string): nat {
    if w.route(key) < |w.logs| then w.route(key) else 0
  }

  ghost predicate Fresh(w: World, m: Message) {
    forall k :: k in w.known ==> k.id != m.id
  }

  ghost function Step(w: World, a: Action): Option<World> {
    match a
    case Produce(p) =>
      var s := P.Step(w.prod, w.logs, p);
      if s.None? || (p.StartAdd? && !(p.m.producer == w.me && Fresh(w, p.m))) then None
      else Some(w.(prod := s.value, known := if p.StartAdd? then w.known + {p.m} else w.known))
    case Append(m) =>
      if m in w.prod.requested && |w.logs| > 0 then
        Some(w.(logs := KafkaLog.Append(w.logs, Partition(w, m.producer), Good(m)))) else None
    case Foreign(m) =>
      if m.producer != w.me && (m in w.known || Fresh(w, m)) && |w.logs| > 0 then
        Some(w.(logs := KafkaLog.Append(w.logs, Partition(w, m.producer), Good(m)), known := w.known + {m})) else None
    case ForeignBroken(p, r) =>
      if p < |w.logs| && !r.Good? then Some(w.(logs := KafkaLog.Append(w.logs, p, r))) else None
    case Consume(c) =>
      var s := C.Step(w.cons, w.logs, c);
      if s.Some? then Some(w.(cons := s.value)) else None
  }

  /** The world after a run; None when some action was not enabled. */
  ghost function Run(w: World, run: seq<Action>): Option<World>
    decreases run
  {
    if run == [] then Some(w)
    else
      var next := Step(w, run[0]);
      if next.Some? then Run(next.value, run[1..]) else None
  }

  /** A step of the producer is a step of the world. */
  lemma ProducerSteps(w: World, p: P.Action, s: P.Producer)
    requires P.Step(w.prod, w.logs, p) == Some(s)
    ensures !p.StartAdd? ==> Step(w, Produce(p)) == Some(w.(prod := s))
    ensures p.StartAdd? && p.m.producer == w.me && Fresh(w, p.m) ==>
      Step(w, Produce(p)) == Some(w.(prod := s, known := w.known + {p.m}))
  {
  }

  /** So is a resumption of one of its tasks. */
  lemma TaskSteps(w: World, t: nat, wake: P.Wake, s: P.Producer)
    requires t in w.prod.tasks && P.Woken(w.prod, w.logs, t, w.prod.tasks[t], wake) == Some(s)
    ensures Step(w, Produce(P.Resume(t, wake))) == Some(w.(prod := s))
  {
    ProducerSteps(w, P.Resume(t, wake), s);
  }

  lemma ConsumerSteps(w: World, c: C.Action, s: C.Consumer)
    requires C.Step(w.cons, w.logs, c) == Some(s)
    ensures Step(w, Consume(c)) == Some(w.(cons := s))
  {
  }

  ghost predicate Init(w: World) {
    && w.known == {}
    && (forall p :: 0 <= p < |w.logs| ==> w.logs[p] == [])
    && P.Init(w.prod)
    && C.Init(w.cons, w.logs)
  }

  // ---- the invariant -----------------------------------------------------------

  ghost predicate Inv(w: World) {
    && UniqueIds(w.known)
    && w.prod.handed <= w.known
    && (forall m :: m in w.prod.handed ==> m.producer == w.me)
    && (forall p: nat, i: nat, m :: At(w.logs, p, i, m) ==>
         m in w.known && p == Partition(w, m.producer) && (m.producer == w.me ==> m in w.prod.requested))
    && P.Inv(w.prod, w.logs)
    && C.Inv(w.cons, w.logs)
  }

  lemma StepInv(w: World, a: Action)
    requires Inv(w) && Step(w, a).Some?
    ensures Inv(Step(w, a).value)
  {
    var w' := Step(w, a).value;
    match a
    case Produce(p) => ProduceInv(w, p);
    case Append(m) => AppendInv(w, Partition(w, m.producer), Good(m), w');
    case Foreign(m) => AppendInv(w, Partition(w, m.producer), Good(m), w');
    case ForeignBroken(p, r) => AppendInv(w, p, r, w');
    case Consume(c) =>
      C.StepInv(w.cons, w.logs, c);
      assert forall k :: Partition(w', k) == Partition(w, k);
  }

  lemma ProduceInv(w: World, p: P.Action)
    requires Inv(w) && Step(w, Produce(p)).Some?
    ensures Inv(Step(w, Produce(p)).value)
  {
    if p.StartAdd? { assert UniqueIds(w.known + {p.m}); }
    P.StepInv(w.prod, w.logs, p);
    HandedGrows(w.prod, w.logs, p);
    assert forall k :: Partition(Step(w, Produce(p)).value, k) == Partition(w, k);
  }

  lemma AppendInv(w: World, p: nat, r: Record, w': World)
    requires Inv(w) && p < |w.logs|
    requires w' == w.(logs := KafkaLog.Append(w.logs, p, r), known := if r.Good? then w.known + {r.msg} else w.known)
    requires UniqueIds(w'.known)
    requires r.Good? ==> p == Partition(w, r.msg.producer) && (r.msg.producer == w.me ==> r.msg in w.prod.requested)
    ensures Inv(w')
  {
    AppendKeeps(w.logs, p, r);
    P.LogGrows(w.prod, w.logs, w'.logs);
    C.LogGrows(w.cons, w.logs, p, r);
    assert forall k :: Partition(w', k) == Partition(w, k);
  }

  lemma HandedGrows(s: P.Producer, logs: Logs, a: P.Action)
    requires P.Step(s, logs, a).Some?
    ensures P.Step(s, logs, a).value.handed == if a.StartAdd? then s.handed + {a.m} else s.handed
    ensures s.requested <= P.Step(s, logs, a).value.requested
  {
  }

  lemma InitInv(w: World)
    requires Init(w)
    ensures Inv(w)
  {
  }

  lemma {:induction false} RunInv(w: World, run: seq<Action>)
    requires Inv(w) && Run(w, run).Some?
    ensures Inv(Run(w, run).value)
    decreases run
  {
    if run != [] {
      StepInv(w, run[0]);
      RunInv(Step(w, run[0]).value, run[1..]);
    }
  }

  ghost predicate Reachable(w: World) {
    exists w0, run :: Init(w0) && Run(w0, run) == Some(w)
  }

  lemma ReachableInv(w: World)
    requires Reachable(w)
    ensures Inv(w)
  {
    var w0, run :| Init(w0) && Run(w0, run) == Some(w);
    InitInv(w0);
    RunInv(w0, run);
  }

  lemma {:induction false} RunMore(w: World, run: seq<Action>, a: Action)
    requires Run(w, run).Some?
    ensures Run(w, run + [a]) == Step(Run(w, run).value, a)
    decreases run
  {
    if run == [] {
      assert [] + [a] == [a] && [a][1..] == [];
    } else {
      RunMore(Step(w, run[0]).value, run[1..], a);
      assert (run + [a])[0] == run[0] && (run + [a])[1..] == run[1..] + [a];
    }
  }

  lemma ReachableStep(w: World, a: Action, w': World)
    requires Reachable(w) && Step(w, a) == Some(w')
    ensures Reachable(w')
  {
    var w0, run :| Init(w0) && Run(w0, run) == Some(w);
    RunMore(w0, run, a);
    assert Init(w0) && Run(w0, run + [a]) == Some(w');
  }

  lemma {:induction false} ReachableRun(w: World, run: seq<Action>, w': World)
    requires Reachable(w) && Run(w, run) == Some(w')
    ensures Reachable(w')
    decreases run
  {
    if run != [] {
      ReachableStep(w, run[0], Step(w, run[0]).value);
      ReachableRun(Step(w, run[0]).value, run[1..], w');
    }
  }

  /** After a crash of the producer the table is as it was last committed, there is neither task nor
      connection, and what was accepted is still in the table's history. */
  lemma CrashRollsBack(w: World)
    requires Reachable(w)
    ensures var w' := Step(w, Produce(P.Crash)).value;
      && w'.prod.db == w.prod.durable && w'.prod.tasks == map[] && !w'.prod.conn.connected && w'.prod.conn.handle.None?
      && w'.prod.acked == w.prod.acked <= w'.prod.db.inserted && w'.logs == w.logs
  {
    ReachableInv(w);
  }

  // ---- runs under a rule -----------------------------------------------------------

  /** Every step of the run obeys the rule in the world in which it is taken. */
  ghost predicate Obeys(w: World, run: seq<Action>, rule: (World, Action) -> bool)
    decreases run
  {
    run != [] ==>
      && rule(w, run[0])
      && (Step(w, run[0]).Some? ==> Obeys(Step(w, run[0]).value, run[1..], rule))
  }

  ghost predicate LeadsUnder(rule: (World, Action) -> bool, w: World, w': World) {
    exists run :: Run(w, run) == Some(w') && Obeys(w, run, rule)
  }

  ghost predicate ReachableUnder(rule: (World, Action) -> bool, w: World) {
    exists w0 :: Init(w0) && LeadsUnder(rule, w0, w)
  }

  lemma UnderIsReachable(rule: (World, Action) -> bool, w: World)
    requires ReachableUnder(rule, w)
    ensures Reachable(w) && Inv(w)
  {
    var w0 :| Init(w0) && LeadsUnder(rule, w0, w);
    var run :| Run(w0, run) == Some(w) && Obeys(w0, run, rule);
    ReachableInv(w);
  }

  lemma {:induction false} ObeysMore(w: World, run: seq<Action>, a: Action, rule: (World, Action) -> bool)
    requires Run(w, run).Some? && Obeys(w, run, rule) && rule(Run(w, run).value, a)
    ensures Obeys(w, run + [a], rule)
    decreases run
  {
    if run == [] {
      assert [] + [a] == [a] && [a][1..] == [];
    } else {
      ObeysMore(Step(w, run[0]).value, run[1..], a, rule);
      assert (run + [a])[0] == run[0] && (run + [a])[1..] == run[1..] + [a];
    }
  }

  lemma LeadsUnderSelf(rule: (World, Action) -> bool, w: World)
    ensures LeadsUnder(rule, w, w)
  {
    assert Run(w, []) == Some(w) && Obeys(w, [], rule);
  }

  lemma LeadsUnderStep(rule: (World, Action) -> bool, w: World, w1: World, a: Action, w2: World)
    requires LeadsUnder(rule, w, w1) && Step(w1, a) == Some(w2) && rule(w1, a)
    ensures LeadsUnder(rule, w, w2)
  {
    var run :| Run(w, run) == Some(w1) && Obeys(w, run, rule);
    RunMore(w, run, a);
    ObeysMore(w, run, a, rule);
    assert Run(w, run + [a]) == Some(w2) && Obeys(w, run + [a], rule);
  }

  lemma UnderStep(rule: (World, Action) -> bool, w: World, a: Action, w': World)
    requires ReachableUnder(rule, w) && Step(w, a) == Some(w') && rule(w, a)
    ensures ReachableUnder(rule, w')
  {
    var w0 :| Init(w0) && LeadsUnder(rule, w0, w);
    LeadsUnderStep(rule, w0, w, a, w');
  }
}
