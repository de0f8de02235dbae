/** The consumer process as a transition system: the consume loop (poll, save, commit the offset),
    the stats loop and the hourly cleanup, interleaved at every await, with exceptions that drop
    the Kafka session, process crashes that roll back what is uncommitted, and offset commits
    that take effect late, twice or never. */
module ConsumerSystem {
  import opened Messages
  import opened IntSets
  import opened KafkaLog

  /** The table, and how far into each partition log it has come.  `pruned` are the ids that
      cleanup_old deleted. */
  datatype Store = Store(rows: map<string, Message>, prefix: seq<nat>, pruned: set<string>)

  datatype Pc =
    | Polling
    | Inserting(p: nat)              // save: INSERT OR IGNORE
    | Committing(p: nat)             // save: commit
    | CommittingOffset(p: nat)       // consumer.commit({tp: offset + 1})
    | Lag(ends: seq<nat>)            // _update_lag: positions, the end offsets being sampled

  /** `next` is the first record of each partition not yet handled, `fetch` the client's position. */
  datatype Session = Session(next: seq<nat>, fetch: seq<nat>, pc: Pc)

  datatype Consumer = Consumer(
    store: Store, durable: Store, session: Option<Session>,
    offsets: seq<nat>, commitRequests: set<(nat, nat)>,
    cached: map<string, int>, served: set<(string, int)>, lag: nat)

  datatype Action =
    | Connect
    | Poll(upTo: seq<nat>)
    | Handle(p: nat)
    | Saved
    | SaveCommitted
    | OffsetCommitted
    | LateCommit(p: nat, offset: nat)
    | SampleLag
    | LagDone
    | LagFailed
    | Raise
    | Prune(ids: set<string>)
    | PruneCommitted
    | RefreshStats(last: map<string, int>)
    | Crash

  // ---- one step ---------------------------------------------------------------

  function Max(a: nat, b: nat): nat { if a < b then b else a }

  /** INSERT OR IGNORE of the record at offset i of partition p: a known id and an incomplete record
      leave the rows as they are. */
  ghost function Save(st: Store, p: nat, i: nat, r: Record): Store
    requires p < |st.prefix|
  {
    st.(rows := if r.Good? && r.msg.id !in st.rows then st.rows[r.msg.id := r.msg] else st.rows,
        prefix := st.prefix[p := Max(st.prefix[p], i + 1)])
  }

  ghost predicate HasRow(rows: map<string, Message>, producer: string, sequence: int) {
    exists id :: id in rows && rows[id].producer == producer && rows[id].sequence == sequence
  }

  /** SELECT producer_id, MAX(sequence) ... GROUP BY producer_id */
  ghost predicate IsLastSequence(rows: map<string, Message>, last: map<string, int>) {
    && (forall id :: id in rows ==> rows[id].producer in last && rows[id].sequence <= last[rows[id].producer])
    && (forall k :: k in last ==> HasRow(rows, k, last[k]))
  }

  function Lens(logs: Logs): seq<nat> {
    seq(|logs|, p requires 0 <= p < |logs| => |logs[p]|)
  }

  /** total_lag: the sum over the partitions of max(0, end - position). */
  function TotalLag(ends: seq<nat>, positions: seq<nat>): nat
    requires |ends| == |positions|
  {
    if ends == [] then 0
    else
      var p := |ends| - 1;
      TotalLag(ends[..p], positions[..p]) + if ends[p] > positions[p] then ends[p] - positions[p] else 0
  }

  ghost predicate Below(a: seq<nat>, b: seq<nat>) {
    |a| == |b| && forall p :: 0 <= p < |a| ==> a[p] <= b[p]
  }

  ghost predicate InBatch(x: Session, p: nat) {
    p < |x.next| == |x.fetch| && x.next[p] < x.fetch[p]
  }

  ghost function InSession(s: Consumer, x: Session, logs: Logs, a: Action): Option<Consumer> {
    match (a, x.pc)
    case (Poll(upTo), Polling) =>
      if x.next == x.fetch && Below(x.fetch, upTo) && Below(upTo, Lens(logs)) then
        Some(s.(session := Some(x.(fetch := upTo)))) else None
    case (Handle(p), Polling) =>
      if InBatch(x, p) && p < |logs| && x.next[p] < |logs[p]| && !logs[p][x.next[p]].Malformed? then
        Some(s.(session := Some(x.(pc := Inserting(p))))) else None
    case (Saved, Inserting(p)) =>
      if InBatch(x, p) && p < |logs| && x.next[p] < |logs[p]| && !logs[p][x.next[p]].Malformed? && p < |s.store.prefix| then
        Some(s.(store := Save(s.store, p, x.next[p], logs[p][x.next[p]]), session := Some(x.(pc := Committing(p)))))
      else None
    case (SaveCommitted, Committing(p)) =>
      if InBatch(x, p) then
        Some(s.(durable := s.store, session := Some(x.(pc := CommittingOffset(p))),
                commitRequests := s.commitRequests + {(p, x.next[p] + 1)}))
      else None
    case (OffsetCommitted, CommittingOffset(p)) =>
      if InBatch(x, p) && p < |s.offsets| then
        Some(s.(offsets := s.offsets[p := x.next[p] + 1],
                session := Some(x.(next := x.next[p := x.next[p] + 1], pc := Polling))))
      else None
    case (SampleLag, Polling) =>
      if x.next == x.fetch then Some(s.(session := Some(x.(pc := Lag(Lens(logs)))))) else None
    case (LagDone, Lag(ends)) =>
      if |ends| == |x.fetch| then
        Some(s.(lag := TotalLag(ends, x.fetch), session := Some(x.(pc := Polling)))) else None
    case (LagFailed, Lag(_)) => Some(s.(session := Some(x.(pc := Polling))))
    case _ => None
  }

  ghost function Step(s: Consumer, logs: Logs, a: Action): Option<Consumer> {
    match a
    case Connect => Some(s.(session := Some(Session(s.offsets, s.offsets, Polling))))
    case Raise => Some(s.(session := None))
    case LateCommit(p, o) =>
      if (p, o) in s.commitRequests && p < |s.offsets| then Some(s.(offsets := s.offsets[p := o])) else None
    case Prune(ids) =>
      Some(s.(store := s.store.(rows := s.store.rows - ids, pruned := s.store.pruned + (s.store.rows.Keys * ids))))
    case PruneCommitted => Some(s.(durable := s.store))
    case RefreshStats(last) =>
      if IsLastSequence(s.store.rows, last) then
        Some(s.(cached := last, served := s.served + set k | k in last :: (k, last[k]))) else None
    case Crash =>
      // a watermark that came from a rolled-back row does not survive
      Some(s.(store := s.durable, session := None, cached := map[],
              served := set w | w in s.served && HasRow(s.durable.rows, w.0, w.1)))
    case _ => if s.session.Some? then InSession(s, s.session.value, logs, a) else None
  }

  /** What was served and which commits were asked for is remembered: a refresh serves all that it
      caches, only a crash takes a served watermark back, and only one whose row it rolls back; and a
      commit once asked for can take effect at any later time. */
  lemma NothingIsForgotten(s: Consumer, logs: Logs, a: Action)
    requires Step(s, logs, a).Some?
    ensures var s' := Step(s, logs, a).value;
      && (a.RefreshStats? ==> forall k :: k in a.last ==> (k, a.last[k]) in s'.served)
      && (forall w :: w in s.served && (a.Crash? ==> HasRow(s.durable.rows, w.0, w.1)) ==> w in s'.served)
      && s.commitRequests <= s'.commitRequests
      && (a.SaveCommitted? ==> exists p: nat :: InBatch(s.session.value, p) && (p, s.session.value.next[p] + 1) in s'.commitRequests)
    ensures forall r :: r in s.commitRequests && r.0 < |s.offsets| ==>
      Step(s, logs, LateCommit(r.0, r.1)) == Some(s.(offsets := s.offsets[r.0 := r.1]))
  {
    if a.SaveCommitted? {
      var x := s.session.value;
      assert InBatch(x, x.pc.p);
    }
  }

  ghost function Zeros(n: nat): seq<nat> { seq(n, _ => 0) }

  ghost predicate Init(s: Consumer, logs: Logs) {
    && s.store == s.durable == Store(map[], Zeros(|logs|), {})
    && s.session.None? && s.offsets == Zeros(|logs|) && s.commitRequests == {}
    && s.cached == map[] && s.served == {}
  }

  // ---- the invariant ------------------------------------------------------------

  /** The record with this id lies below `prefix`. */
  ghost predicate Read(logs: Logs, prefix: seq<nat>, m: Message) {
    exists p: nat, i: nat :: At(logs, p, i, m) && p < |prefix| && i < prefix[p]
  }

  ghost predicate ReadId(logs: Logs, prefix: seq<nat>, id: string) {
    exists m: Message :: Read(logs, prefix, m) && m.id == id
  }

  ghost predicate ReadSequence(logs: Logs, prefix: seq<nat>, producer: string, sequence: int) {
    exists m: Message :: Read(logs, prefix, m) && m.producer == producer && m.sequence == sequence
  }

  /** What was ever saved is exactly a prefix of each partition log: every record below `prefix`
      could be handled and, if it is complete, has its row (or had it, before it was pruned), and every
      row, pruned or not, is such a record. */
  ghost predicate StoreInv(st: Store, logs: Logs) {
    && Below(st.prefix, Lens(logs))
    && (forall p, i :: 0 <= p < |logs| && 0 <= i < st.prefix[p] ==>
         && !logs[p][i].Malformed?
         && (logs[p][i].Good? ==> logs[p][i].msg.id in st.rows || logs[p][i].msg.id in st.pruned))
    && (forall id :: id in st.rows ==> st.rows[id].id == id && Read(logs, st.prefix, st.rows[id]))
    && (forall id :: id in st.pruned ==> ReadId(logs, st.prefix, id))
  }

  ghost predicate SessionInv(x: Session, s: Consumer, logs: Logs) {
    && Below(x.next, s.durable.prefix)
    && Below(x.next, x.fetch)
    && Below(x.fetch, Lens(logs))
    && match x.pc
       case Polling => true
       case Inserting(p) => InBatch(x, p) && p < |logs| && !logs[p][x.next[p]].Malformed?
       case Committing(p) => InBatch(x, p) && p < |logs| == |s.store.prefix| && x.next[p] < s.store.prefix[p]
       case CommittingOffset(p) => InBatch(x, p) && p < |logs| == |s.durable.prefix| && x.next[p] < s.durable.prefix[p]
       case Lag(ends) => x.next == x.fetch && Below(ends, Lens(logs))
  }

  ghost predicate ServedInv(served: set<(string, int)>, st: Store, logs: Logs) {
    forall w :: w in served ==> ReadSequence(logs, st.prefix, w.0, w.1)
  }

  ghost predicate Inv(s: Consumer, logs: Logs) {
    && StoreInv(s.store, logs)
    && StoreInv(s.durable, logs)
    && Below(s.durable.prefix, s.store.prefix)
    && Below(s.offsets, s.durable.prefix)
    && (forall r :: r in s.commitRequests ==> r.0 < |logs| && r.1 <= s.durable.prefix[r.0])
    && (s.session.Some? ==> SessionInv(s.session.value, s, logs))
    && ServedInv(s.served, s.store, logs)
  }

  lemma InitInv(s: Consumer, logs: Logs)
    requires Init(s, logs)
    ensures Inv(s, logs)
  {
  }

  /** What has been read stays read when the log and the prefix grow. */
  lemma ReadGrows(logs: Logs, logs': Logs, prefix: seq<nat>, prefix': seq<nat>)
    requires Below(prefix, prefix')
    requires forall q: nat, i: nat, m :: At(logs, q, i, m) ==> At(logs', q, i, m)
    ensures forall m :: Read(logs, prefix, m) ==> Read(logs', prefix', m)
    ensures forall id :: ReadId(logs, prefix, id) ==> ReadId(logs', prefix', id)
    ensures forall k, n :: ReadSequence(logs, prefix, k, n) ==> ReadSequence(logs', prefix', k, n)
  {
    forall m | Read(logs, prefix, m) ensures Read(logs', prefix', m) {
      var p: nat, i: nat :| At(logs, p, i, m) && p < |prefix| && i < prefix[p];
      assert At(logs', p, i, m);
    }
  }

  /** New records arriving in the log change nothing for the consumer. */
  lemma LogGrows(s: Consumer, logs: Logs, p: nat, r: Record)
    requires Inv(s, logs) && p < |logs|
    ensures Inv(s, Append(logs, p, r))
  {
    AppendKeeps(logs, p, r);
    StoreGrows(s.store, logs, p, r);
    StoreGrows(s.durable, logs, p, r);
    ReadGrows(logs, Append(logs, p, r), s.store.prefix, s.store.prefix);
  }

  lemma StoreGrows(st: Store, logs: Logs, p: nat, r: Record)
    requires StoreInv(st, logs) && p < |logs|
    ensures StoreInv(st, Append(logs, p, r))
  {
    AppendKeeps(logs, p, r);
    ReadGrows(logs, Append(logs, p, r), st.prefix, st.prefix);
  }

  /** Saving the next record extends the prefix by one, or repeats part of it. */
  lemma SaveInv(st: Store, logs: Logs, p: nat, i: nat)
    requires StoreInv(st, logs) && p < |logs| && i < |logs[p]| && !logs[p][i].Malformed? && i <= st.prefix[p]
    ensures StoreInv(Save(st, p, i, logs[p][i]), logs)
    ensures Below(st.prefix, Save(st, p, i, logs[p][i]).prefix)
  {
    ReadGrows(logs, logs, st.prefix, Save(st, p, i, logs[p][i]).prefix);
    assert logs[p][i].Good? ==> At(logs, p, i, logs[p][i].msg);
  }

  /** A watermark backed by a row is backed by a record that was read. */
  lemma RowServed(st: Store, logs: Logs, producer: string, sequence: int)
    requires StoreInv(st, logs) && HasRow(st.rows, producer, sequence)
    ensures ReadSequence(logs, st.prefix, producer, sequence)
  {
  }

  lemma StepInv(s: Consumer, logs: Logs, a: Action)
    requires Inv(s, logs) && Step(s, logs, a).Some?
    ensures Inv(Step(s, logs, a).value, logs)
  {
    match a
    case RefreshStats(last) =>
      forall k | k in last ensures ReadSequence(logs, s.store.prefix, k, last[k]) {
        RowServed(s.store, logs, k, last[k]);
      }
    case Crash =>
      forall w | w in s.served && HasRow(s.durable.rows, w.0, w.1)
        ensures ReadSequence(logs, s.durable.prefix, w.0, w.1)
      {
        RowServed(s.durable, logs, w.0, w.1);
      }
    case Connect =>
    case Raise =>
    case LateCommit(p, o) =>
    case Prune(ids) => PruneInv(s.store, logs, ids);
    case PruneCommitted =>
    case _ => InSessionInv(s, logs, a);
  }

  lemma PruneInv(st: Store, logs: Logs, ids: set<string>)
    requires StoreInv(st, logs)
    ensures StoreInv(st.(rows := st.rows - ids, pruned := st.pruned + (st.rows.Keys * ids)), logs)
  {
  }

  lemma InSessionInv(s: Consumer, logs: Logs, a: Action)
    requires Inv(s, logs) && s.session.Some? && InSession(s, s.session.value, logs, a).Some?
    ensures Inv(InSession(s, s.session.value, logs, a).value, logs)
  {
    if a.Saved? {
      SavedInv(s, logs);
    }
  }

  lemma SavedInv(s: Consumer, logs: Logs)
    requires Inv(s, logs) && s.session.Some? && InSession(s, s.session.value, logs, Saved).Some?
    ensures Inv(InSession(s, s.session.value, logs, Saved).value, logs)
  {
    var x := s.session.value;
    var p := x.pc.p;
    SaveInv(s.store, logs, p, x.next[p]);
    ReadGrows(logs, logs, s.store.prefix, Save(s.store, p, x.next[p], logs[p][x.next[p]]).prefix);
  }

  /** total_lag == 0 says that every position has reached its sampled end. */
  lemma {:induction false} NoLagLeft(ends: seq<nat>, positions: seq<nat>)
    requires |ends| == |positions|
    ensures TotalLag(ends, positions) == 0 <==> Below(ends, positions)
  {
    if ends != [] {
      var p := |ends| - 1;
      NoLagLeft(ends[..p], positions[..p]);
      assert Below(ends, positions) <==> ends[p] <= positions[p] && Below(ends[..p], positions[..p]);
    }
  }

  /** The offsets between the positions and the ends, as (partition, offset). */
  ghost function Unread(ends: seq<nat>, positions: seq<nat>): set<(int, int)>
    requires |ends| == |positions|
  {
    set p, i | 0 <= p < |ends| && positions[p] <= i < ends[p] :: (p, i)
  }

  /** The lag is the number of records that are still to be read. */
  lemma {:induction false} LagCountsUnread(ends: seq<nat>, positions: seq<nat>)
    requires |ends| == |positions|
    ensures TotalLag(ends, positions) == |set p, i | 0 <= p < |ends| && positions[p] <= i < ends[p] :: (p, i)|
  {
    UnreadSize(ends, positions);
    assert Unread(ends, positions) == set p, i | 0 <= p < |ends| && positions[p] <= i < ends[p] :: (p, i);
  }

  lemma {:induction false} UnreadSize(ends: seq<nat>, positions: seq<nat>)
    requires |ends| == |positions|
    ensures TotalLag(ends, positions) == |Unread(ends, positions)|
  {
    if ends == [] {
      assert Unread(ends, positions) == {};
    } else {
      var p := |ends| - 1;
      var init := Unread(ends[..p], positions[..p]);
      UnreadSize(ends[..p], positions[..p]);
      assert Unread(ends, positions) == init + Column(p, positions[p], ends[p]);
      OneMoreColumn(init, Unread(ends, positions), p, positions[p], ends[p]);
    }
  }
}
