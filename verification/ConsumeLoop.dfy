/** The consume loop: poll, save each record, commit its offset; any exception drops the session.
    The class keeps, beside its own fields, the state of the consumer transition system, and every
    method is a run of that system. */
module ConsumeLoop {
  import opened Messages
  import opened KafkaLog
  import opened MessageStore
  import opened Timestamps
  import C = ConsumerSystem

  const BACKOFF_MIN := 2
  const BACKOFF_MAX := 30

  // ---- runs of the transition system over a fixed log -------------------------------

  ghost function Steps(s: C.Consumer, logs: Logs, run: seq<C.Action>): Option<C.Consumer> {
    if run == [] then Some(s)
    else
      var before := Steps(s, logs, run[..|run| - 1]);
      if before.Some? then C.Step(before.value, logs, run[|run| - 1]) else None
  }

  ghost predicate Reaches(s: C.Consumer, logs: Logs, s': C.Consumer) {
    exists run :: Steps(s, logs, run) == Some(s')
  }

  lemma ReachesSelf(s: C.Consumer, logs: Logs)
    ensures Reaches(s, logs, s)
  {
    assert Steps(s, logs, []) == Some(s);
  }

  lemma ReachesStep(s: C.Consumer, logs: Logs, s1: C.Consumer, a: C.Action)
    requires Reaches(s, logs, s1) && C.Step(s1, logs, a).Some?
    ensures Reaches(s, logs, C.Step(s1, logs, a).value)
  {
    var run :| Steps(s, logs, run) == Some(s1);
    assert (run + [a])[..|run|] == run;
    assert Steps(s, logs, run + [a]) == C.Step(s1, logs, a);
  }

  /** So whatever the methods below do, the invariant of the transition system survives it. */
  lemma {:induction false} StepsKeepInv(s: C.Consumer, logs: Logs, run: seq<C.Action>)
    requires C.Inv(s, logs) && Steps(s, logs, run).Some?
    ensures C.Inv(Steps(s, logs, run).value, logs)
  {
    if run != [] {
      var shorter := run[..|run| - 1];
      StepsKeepInv(s, logs, shorter);
      C.StepInv(Steps(s, logs, shorter).value, logs, run[|run| - 1]);
    }
  }

  lemma ReachesKeepsInv(s: C.Consumer, logs: Logs, s': C.Consumer)
    requires C.Inv(s, logs) && Reaches(s, logs, s')
    ensures C.Inv(s', logs)
  {
    var run :| Steps(s, logs, run) == Some(s');
    StepsKeepInv(s, logs, run);
  }

  /** Ready to handle the next record of partition p. */
  ghost predicate Ready(s: C.Consumer, logs: Logs, p: nat) {
    && s.session.Some? && s.session.value.pc.Polling?
    && C.InBatch(s.session.value, p) && p < |logs| && p < |s.store.prefix| && p < |s.offsets|
    && s.session.value.next[p] < |logs[p]| && !logs[p][s.session.value.next[p]].Malformed?
  }

  /** After the INSERT of the next record of partition p. */
  ghost function Inserted(s: C.Consumer, p: nat, r: Record): C.Consumer
    requires s.session.Some? && p < |s.session.value.next| && p < |s.store.prefix|
  {
    s.(store := C.Save(s.store, p, s.session.value.next[p], r), session := Some(s.session.value.(pc := C.Committing(p))))
  }

  /** After its SQLite commit. */
  ghost function Saved(s: C.Consumer, p: nat, r: Record): C.Consumer
    requires s.session.Some? && p < |s.session.value.next| && p < |s.store.prefix|
  {
    var st := C.Save(s.store, p, s.session.value.next[p], r);
    s.(store := st, durable := st, session := Some(s.session.value.(pc := C.CommittingOffset(p))),
       commitRequests := s.commitRequests + {(p, s.session.value.next[p] + 1)})
  }

  /** After its offset commit. */
  ghost function Passed(s: C.Consumer, p: nat, r: Record): C.Consumer
    requires s.session.Some? && p < |s.session.value.next| && p < |s.store.prefix| && p < |s.offsets|
  {
    var n := s.session.value.next[p] + 1;
    Saved(s, p, r).(offsets := s.offsets[p := n],
                    session := Some(s.session.value.(next := s.session.value.next[p := n])))
  }

  lemma ToInserted(s: C.Consumer, logs: Logs, p: nat, r: Record)
    requires Ready(s, logs, p) && logs[p][s.session.value.next[p]] == r
    ensures Reaches(s, logs, Inserted(s, p, r))
  {
    var handling := s.(session := Some(s.session.value.(pc := C.Inserting(p))));
    ReachesSelf(s, logs);
    assert C.Step(s, logs, C.Handle(p)) == Some(handling);
    ReachesStep(s, logs, s, C.Handle(p));
    assert C.Step(handling, logs, C.Saved) == Some(Inserted(s, p, r));
    ReachesStep(s, logs, handling, C.Saved);
  }

  lemma ToSaved(s: C.Consumer, logs: Logs, p: nat, r: Record)
    requires Ready(s, logs, p) && logs[p][s.session.value.next[p]] == r
    ensures Reaches(s, logs, Saved(s, p, r))
  {
    ToInserted(s, logs, p, r);
    SavedNext(s, logs, p, r);
    ReachesStep(s, logs, Inserted(s, p, r), C.SaveCommitted);
  }

  lemma SavedNext(s: C.Consumer, logs: Logs, p: nat, r: Record)
    requires Ready(s, logs, p)
    ensures C.Step(Inserted(s, p, r), logs, C.SaveCommitted) == Some(Saved(s, p, r))
  {
  }

  lemma ToPassed(s: C.Consumer, logs: Logs, p: nat, r: Record)
    requires Ready(s, logs, p) && logs[p][s.session.value.next[p]] == r
    ensures Reaches(s, logs, Passed(s, p, r))
  {
    ToSaved(s, logs, p, r);
    PassedNext(s, logs, p, r);
    ReachesStep(s, logs, Saved(s, p, r), C.OffsetCommitted);
  }

  lemma PassedNext(s: C.Consumer, logs: Logs, p: nat, r: Record)
    requires Ready(s, logs, p)
    ensures C.Step(Saved(s, p, r), logs, C.OffsetCommitted) == Some(Passed(s, p, r))
  {
  }

  /** What the passing of a record changes. */
  lemma PassedShape(s: C.Consumer, p: nat, r: Record, next: seq<nat>, position: seq<nat>, following: nat)
    requires p < |next| && following == next[p] + 1 && s.session == Some(C.Session(next, position, C.Polling)) && p < |next|
    requires p < |s.store.prefix| && p < |s.offsets|
    ensures var s' := Passed(s, p, r);
      && s'.session == Some(C.Session(next[p := following], position, C.Polling))
      && s'.offsets == s.offsets[p := following] && s'.store == Saved(s, p, r).store
      && |s'.store.prefix| == |s.store.prefix|
  {
  }

  // ---- the service --------------------------------------------------------------------

  function Table(rows: map<string, StoredRow>): map<string, Message> {
    map id | id in rows :: rows[id].msg
  }

  /** What the INSERT of a record does to the class's table, as the transition system sees it. */
  lemma TableOfInsert(rows: map<string, StoredRow>, r: Record, rows': map<string, StoredRow>)
    requires !r.Good? || r.msg.id in rows ==> rows' == rows
    requires r.Good? && r.msg.id !in rows ==>
      rows'.Keys == rows.Keys + {r.msg.id} && rows'[r.msg.id].msg == r.msg && forall id :: id in rows ==> rows'[id] == rows[id]
    ensures Table(rows') == if r.Good? && r.msg.id !in Table(rows) then Table(rows)[r.msg.id := r.msg] else Table(rows)
    ensures r.Good? ==> r.msg.id in rows'
    ensures |rows'| == |rows| + if r.Good? && r.msg.id !in rows then 1 else 0
    ensures forall id :: id in rows ==> id in rows' && rows'[id] == rows[id]
  {
    if r.Good? && r.msg.id !in rows {
      assert |rows'.Keys| == |rows.Keys| + 1;
    }
  }

  lemma TableOfSave(s: C.Consumer, p: nat, r: Record, rows: map<string, StoredRow>, rows': map<string, StoredRow>)
    requires s.session.Some? && p < |s.session.value.next| && p < |s.store.prefix|
    requires s.store.rows == Table(rows)
    requires Table(rows') == if r.Good? && r.msg.id !in Table(rows) then Table(rows)[r.msg.id := r.msg] else Table(rows)
    ensures Inserted(s, p, r).store.rows == Table(rows') && Saved(s, p, r).store.rows == Table(rows')
  {
  }

  /** Every record of partition p in the given range could be handled, and has its row if it is complete. */
  ghost predicate Stored(logs: Logs, rows: map<string, StoredRow>, p: nat, from: nat, to: nat) {
    && p < |logs| && to <= |logs[p]|
    && forall i :: from <= i < to ==> HasItsRow(logs[p][i], rows)
  }

  ghost predicate HasItsRow(r: Record, rows: map<string, StoredRow>) {
    !r.Malformed? && (r.Good? ==> r.msg.id in rows)
  }

  lemma StoredGrows(logs: Logs, rows: map<string, StoredRow>, rows': map<string, StoredRow>, p: nat, from: nat, to: nat)
    requires Stored(logs, rows, p, from, to) && from <= to < |logs[p]|
    requires forall id :: id in rows ==> id in rows'
    requires HasItsRow(logs[p][to], rows')
    ensures Stored(logs, rows', p, from, to + 1)
  {
  }

  /** The two sequences differ at index p at most. */
  ghost predicate Elsewhere(p: nat, a: seq<nat>, b: seq<nat>) {
    |a| == |b| && forall q :: 0 <= q < |a| && q != p ==> a[q] == b[q]
  }

  /** The checksum check of _handle_record, before the save. */
  predicate ChecksumOk(sha256: string -> string, r: Record)
    requires !r.Malformed?
  {
    match r
    case Good(m) => VerifyChecksum(sha256, m.data, m.checksum)
    case Incomplete(ok) => ok
  }

  /** The record's payload has a checksum that is not the digest of its data. */
  ghost predicate WrongChecksum(sha256: string -> string, r: Record) {
    if r.Good? then r.msg.checksum != "" && r.msg.checksum != sha256(r.msg.data) else r.Incomplete? && !r.checksumOk
  }

  /** Insert, commit and offset commit: none of the three awaits raises. */
  ghost predicate ThreeAwaits(faults: nat -> bool, t: nat) {
    !faults(t) && !faults(t + 1) && !faults(t + 2)
  }

  /** No await raises. */
  ghost predicate Undisturbed(faults: nat -> bool) {
    forall t :: !faults(t)
  }

  /** A message under the digest of its own data, as the producer makes it, has no wrong checksum. */
  lemma OwnDigestIsRight(sha256: string -> string, m: Message)
    requires m.checksum == sha256(m.data)
    ensures !WrongChecksum(sha256, Good(m)) && ChecksumOk(sha256, Good(m))
  {
  }

  class KafkaConsumerService {
    const store: Store
    const logs: Logs                 // the topic during the calls below
    const faults: nat -> bool        // whether the n-th await raises
    var connected: bool
    var receivedCount: nat
    var checksumErrors: nat
    var lagEstimate: nat
    var backoff: nat
    var offsets: seq<nat>            // committed at the broker
    var next: seq<nat>               // first unhandled record of each partition
    var position: seq<nat>           // the client's fetch position
    var tick: nat
    ghost var model: C.Consumer

    ghost predicate Valid()
      reads this, store
    {
      && model.store.rows == Table(store.rows)
      && model.offsets == offsets
      && |offsets| == |logs| == |model.store.prefix|
      && connected == model.session.Some?
      && (connected ==> model.session == Some(C.Session(next, position, C.Polling)))
      && (connected ==> |next| == |position| == |logs|)
      && BACKOFF_MIN <= backoff <= BACKOFF_MAX
    }

    constructor (store: Store, logs: Logs, faults: nat -> bool)
      requires store.rows == map[]
      ensures Valid() && this.store == store && this.logs == logs && this.faults == faults
      ensures C.Init(model, logs) && !connected
    {
      this.store, this.logs, this.faults := store, logs, faults;
      connected, receivedCount, checksumErrors, lagEstimate, backoff, tick := false, 0, 0, 0, BACKOFF_MIN, 0;
      offsets, next, position := seq(|logs|, _ => 0), [], [];
      model := C.Consumer(C.Store(map[], C.Zeros(|logs|), {}), C.Store(map[], C.Zeros(|logs|), {}),
                          None, C.Zeros(|logs|), {}, map[], {}, 0);
      new;
      assert offsets == C.Zeros(|logs|);
      assert Table(store.rows) == map[];
    }

    /** An await that may raise. */
    method Await() returns (ok: bool)
      modifies this`tick
      ensures ok == !faults(old(tick)) && tick == old(tick) + 1
    {
      ok, tick := !faults(tick), tick + 1;
    }

    /** An exception reaches _run_loop: the session is gone and the wait doubles, up to its bound. */
    method Drop()
      requires BACKOFF_MIN <= backoff <= BACKOFF_MAX
      modifies this`model, this`connected, this`backoff
      ensures !connected && model == old(model).(session := None)
      ensures backoff == if 2 * old(backoff) < 30 then 2 * old(backoff) else 30
    {
      model := model.(session := None);
      connected := false;
      backoff := if 2 * backoff < BACKOFF_MAX then 2 * backoff else BACKOFF_MAX;
    }

    /** _connect: positions start at the committed offsets; a failure doubles the wait, up to its bound. */
    method Connect() returns (ok: bool)
      requires Valid()
      modifies this
      ensures Valid() && Reaches(old(model), logs, model)
      ensures ok == connected == !faults(old(tick))
      ensures ok ==> next == position == offsets == old(offsets) && backoff == 2
      ensures !ok ==> backoff == if 2 * old(backoff) < 30 then 2 * old(backoff) else 30
    {
      ReachesSelf(model, logs);
      ok := Await();
      if ok {
        ReachesStep(model, logs, model, C.Connect);
        model := C.Step(model, logs, C.Connect).value;
        connected, next, position, backoff := true, offsets, offsets, BACKOFF_MIN;
      } else {
        ReachesStep(model, logs, model, C.Raise);
        Drop();
      }
    }

    /** store.save, awaited: first the INSERT. */
    method InsertNext(p: nat, r: Record, now: Utc, ghost start: C.Consumer) returns (ok: bool, inserted: bool)
      requires Valid() && connected && start == model
      requires Ready(start, logs, p) && logs[p][next[p]] == r
      modifies this`tick, this`model, store
      ensures model.store.rows == Table(store.rows)
      ensures ok == !faults(old(tick)) && tick == old(tick) + 1
      ensures !ok ==> model == start && store.rows == old(store.rows)
      ensures ok ==> model == Inserted(start, p, r) && Saved(start, p, r).store.rows == Table(store.rows)
      ensures ok ==> HasItsRow(r, store.rows) && (!r.Good? ==> store.rows == old(store.rows))
      ensures ok ==> |store.rows| == |old(store.rows)| + (if inserted then 1 else 0)
      ensures forall id :: id in old(store.rows) ==> id in store.rows && store.rows[id] == old(store.rows)[id]
    {
      ok := Await();
      if !ok {
        return false, false;
      }
      inserted := store.Save(r, now);
      TableOfInsert(old(store.rows), r, store.rows);
      TableOfSave(start, p, r, old(store.rows), store.rows);
      model := Inserted(start, p, r);
    }

    /** And then its commit; each may raise. */
    method SaveNext(p: nat, r: Record, now: Utc, ghost start: C.Consumer) returns (ok: bool, inserted: bool)
      requires Valid() && connected && start == model
      requires Ready(start, logs, p) && logs[p][next[p]] == r
      modifies this`tick, this`model, store
      ensures model.store.rows == Table(store.rows)
      ensures Reaches(start, logs, model)
      ensures ok ==> Midway(p, r, start) && HasItsRow(r, store.rows) && (!r.Good? ==> store.rows == old(store.rows))
      ensures ok ==> |store.rows| == |old(store.rows)| + (if inserted then 1 else 0)
      ensures ok <==> !faults(old(tick)) && !faults(old(tick) + 1)
      ensures tick == old(tick) + (if faults(old(tick)) then 1 else 2)
      ensures faults(old(tick)) ==> store.rows == old(store.rows)
      ensures !ok ==> model == start || model == Inserted(start, p, r)
      ensures forall id :: id in old(store.rows) ==> id in store.rows && store.rows[id] == old(store.rows)[id]
    {
      ReachesSelf(start, logs);
      ok, inserted := InsertNext(p, r, now, start);
      if !ok {
        return;
      }
      ToInserted(start, logs, p, r);
      ToSaved(start, logs, p, r);
      ok := Await();
      if ok {
        model := Saved(start, p, r);
      }
    }

    /** The next record of partition p has been saved, and its offset not yet committed. */
    ghost predicate Midway(p: nat, r: Record, start: C.Consumer)
      reads this`model, this`connected, this`next, this`position, this`offsets, this`backoff, store
    {
      && Ready(start, logs, p) && logs[p][start.session.value.next[p]] == r
      && connected && start.session == Some(C.Session(next, position, C.Polling))
      && model == Saved(start, p, r) && model.store.rows == Table(store.rows) && start.offsets == offsets
      && |offsets| == |logs| == |start.store.prefix| == |next| == |position|
      && BACKOFF_MIN <= backoff <= BACKOFF_MAX
    }

    /** An exception in the middle of a record. */
    method Abandon(ghost start: C.Consumer)
      requires Reaches(start, logs, model) && model.store.rows == Table(store.rows) && model.offsets == offsets
      requires |offsets| == |logs| == |model.store.prefix| && BACKOFF_MIN <= backoff <= BACKOFF_MAX
      modifies this`model, this`connected, this`backoff
      ensures Valid() && !connected && Reaches(start, logs, model)
    {
      ReachesStep(start, logs, model, C.Raise);
      Drop();
    }

    /** save, count, and commit the offset. */
    method PersistNext(p: nat, r: Record, following: nat, now: Utc) returns (ok: bool)
      requires Valid() && connected && Ready(model, logs, p) && logs[p][next[p]] == r && following == next[p] + 1
      modifies this`tick, this`model, this`connected, this`next, this`offsets, this`backoff, this`receivedCount, store
      ensures Valid() && Reaches(old(model), logs, model)
      ensures ok == connected
      ensures ok == ThreeAwaits(faults, old(tick))
      ensures !ok ==> offsets == old(offsets)
      ensures faults(old(tick)) ==> store.rows == old(store.rows)
      ensures ok ==> HasItsRow(r, store.rows) && (!r.Good? ==> store.rows == old(store.rows))
      ensures ok ==> next == old(next)[p := following] && offsets == old(offsets)[p := following]
      ensures forall id :: id in old(store.rows) ==> id in store.rows && store.rows[id] == old(store.rows)[id]
      ensures var unsaved := faults(old(tick)) || faults(old(tick) + 1);
        receivedCount - old(receivedCount) == if unsaved then 0 else |store.rows| - |old(store.rows)|
    {
      ghost var start := model;
      var inserted;
      ok, inserted := SaveNext(p, r, now, start);
      if ok {
        receivedCount := receivedCount + if inserted then 1 else 0;
        ok := CommitNext(p, r, following, start, next, offsets);
      } else {
        Abandon(start);
      }
    }

    method CommitNext(p: nat, r: Record, following: nat, ghost start: C.Consumer, ghost n: seq<nat>, ghost o: seq<nat>) returns (ok: bool)
      requires Midway(p, r, start) && n == next && o == offsets && p < |n| && p < |o| && following == n[p] + 1
      modifies this`model, this`connected, this`next, this`offsets, this`backoff, this`tick
      ensures Valid() && Reaches(start, logs, model)
      ensures ok == connected == !faults(old(tick))
      ensures !ok ==> offsets == o
      ensures ok ==> next == n[p := following] && offsets == o[p := following]
    {
      ok := Await();
      if !ok {
        AbandonSaved(p, r, start);
        return false;
      }
      PassNext(p, r, following, start, n, o);
      return true;
    }

    /** The offset commit has failed. */
    method AbandonSaved(p: nat, r: Record, ghost start: C.Consumer)
      requires Midway(p, r, start)
      modifies this`model, this`connected, this`backoff
      ensures Valid() && !connected && Reaches(start, logs, model)
    {
      ToSaved(start, logs, p, r);
      Abandon(start);
    }

    /** The checksum check of a record, and its counter. */
    method CountChecksum(r: Record)
      requires !r.Malformed?
      modifies this`checksumErrors
      ensures var wrong := if r.Good? then r.msg.checksum != "" && r.msg.checksum != store.sha256(r.msg.data) else !r.checksumOk;
        checksumErrors == old(checksumErrors) + (if wrong then 1 else 0)
    {
      if !ChecksumOk(store.sha256, r) {
        checksumErrors := checksumErrors + 1;
      }
    }

    /** _handle_record and the offset commit after it, for the next record of partition p.  A row is
        committed before its offset is, and a record whose handling raises is not passed.  A checksum
        counts as wrong if there is one and it is not the digest of the data. */
    method HandleNext(p: nat, now: Utc) returns (ok: bool)
      requires Valid() && connected
      requires p < |logs| && next[p] < position[p] <= |logs[p]|
      modifies this, store
      ensures Valid() && Reaches(old(model), logs, model)
      ensures ok == connected
      ensures ok <==> !logs[p][old(next)[p]].Malformed? && ThreeAwaits(faults, old(tick))
      ensures ok ==> HasItsRow(logs[p][old(next)[p]], store.rows) && (!logs[p][old(next)[p]].Good? ==> store.rows == old(store.rows))
      ensures ok ==> next == old(next)[p := old(next)[p] + 1] && offsets == old(offsets)[p := old(next)[p] + 1] && position == old(position)
      ensures !ok ==> offsets == old(offsets)
      ensures logs[p][old(next)[p]].Malformed? || faults(old(tick)) ==> store.rows == old(store.rows)
      ensures forall id :: id in old(store.rows) ==> id in store.rows && store.rows[id] == old(store.rows)[id]
      ensures var unsaved := logs[p][old(next)[p]].Malformed? || faults(old(tick)) || faults(old(tick) + 1);
        receivedCount - old(receivedCount) == if unsaved then 0 else |store.rows| - |old(store.rows)|
      ensures var r := logs[p][old(next)[p]];
        var wrong := if r.Good? then r.msg.checksum != "" && r.msg.checksum != store.sha256(r.msg.data) else r.Incomplete? && !r.checksumOk;
        !r.Malformed? ==> checksumErrors == old(checksumErrors) + (if wrong then 1 else 0)
    {
      if logs[p][next[p]].Malformed? {
        ReachesSelf(model, logs);
        Abandon(model);
        ok := false;
      } else {
        ok := HandleDecoded(p, logs[p][next[p]], next[p] + 1, now);
      }
    }

    /** The same for a record that decodes. */
    method HandleDecoded(p: nat, r: Record, following: nat, now: Utc) returns (ok: bool)
      requires Valid() && connected && Ready(model, logs, p) && logs[p][next[p]] == r && following == next[p] + 1
      modifies this`checksumErrors, this`tick, this`model, this`connected, this`next, this`offsets, this`backoff, this`receivedCount, store
      ensures Valid() && Reaches(old(model), logs, model)
      ensures ok == connected == ThreeAwaits(faults, old(tick))
      ensures ok ==> HasItsRow(r, store.rows) && (!r.Good? ==> store.rows == old(store.rows))
      ensures ok ==> next == old(next)[p := following] && offsets == old(offsets)[p := following]
      ensures !ok ==> offsets == old(offsets)
      ensures faults(old(tick)) ==> store.rows == old(store.rows)
      ensures forall id :: id in old(store.rows) ==> id in store.rows && store.rows[id] == old(store.rows)[id]
      ensures var unsaved := faults(old(tick)) || faults(old(tick) + 1);
        receivedCount - old(receivedCount) == if unsaved then 0 else |store.rows| - |old(store.rows)|
      ensures var wrong := if r.Good? then r.msg.checksum != "" && r.msg.checksum != store.sha256(r.msg.data) else !r.checksumOk;
        checksumErrors == old(checksumErrors) + (if wrong then 1 else 0)
    {
      CountChecksum(r);
      ok := PersistNext(p, r, following, now);
    }

    /** The offset commit has succeeded. */
    method PassNext(p: nat, r: Record, following: nat, ghost start: C.Consumer, ghost n: seq<nat>, ghost o: seq<nat>)
      requires Midway(p, r, start) && n == next && o == offsets && p < |n| && p < |o| && following == n[p] + 1
      modifies this`model, this`next, this`offsets
      ensures Valid() && connected && Reaches(start, logs, model)
      ensures next == n[p := following] && offsets == o[p := following]
    {
      ToPassed(start, logs, p, r);
      PassedShape(start, p, r, next, position, following);
      model := Passed(start, p, r);
      next, offsets := next[p := following], offsets[p := following];
    }

    /** The inner loop: the polled records of one partition. */
    method HandlePartition(p: nat, now: Utc) returns (ok: bool)
      requires Valid() && connected && p < |logs| && next[p] <= position[p] <= |logs[p]|
      modifies this, store
      ensures Valid() && Reaches(old(model), logs, model)
      ensures ok == connected
      ensures Undisturbed(faults) && (forall i :: old(next)[p] <= i < old(position)[p] ==> !logs[p][i].Malformed?) ==> ok
      ensures ok ==> position == old(position) && next[p] == position[p]
      ensures ok ==> Elsewhere(p, old(next), next) && Elsewhere(p, old(offsets), offsets)
      ensures ok ==> Stored(logs, store.rows, p, old(next)[p], position[p])
      ensures forall id :: id in old(store.rows) ==> id in store.rows
      ensures ok ==> receivedCount - old(receivedCount) == |store.rows| - |old(store.rows)|
      ensures ok ==> offsets[p] == if old(next)[p] < position[p] then position[p] else old(offsets)[p]
      ensures ok && (forall i :: old(next)[p] <= i < position[p] ==> !WrongChecksum(store.sha256, logs[p][i])) ==>
        checksumErrors == old(checksumErrors)
    {
      ReachesSelf(model, logs);
      while next[p] < position[p]
        invariant Valid() && connected && Reaches(old(model), logs, model)
        invariant position == old(position) && |next| == |logs| && old(next)[p] <= next[p] <= position[p]
        invariant Elsewhere(p, old(next), next) && |offsets| == |logs| && Elsewhere(p, old(offsets), offsets)
        invariant Stored(logs, store.rows, p, old(next)[p], next[p])
        invariant forall id :: id in old(store.rows) ==> id in store.rows
        invariant receivedCount - old(receivedCount) == |store.rows| - |old(store.rows)|
        invariant old(next)[p] < next[p] ==> offsets[p] == next[p]
        invariant old(next)[p] == next[p] ==> offsets[p] == old(offsets)[p]
        invariant (forall i :: old(next)[p] <= i < next[p] ==> !WrongChecksum(store.sha256, logs[p][i])) ==>
          checksumErrors == old(checksumErrors)
        decreases position[p] - next[p]
      {
        ghost var before, rows, from := model, store.rows, next[p];
        ok := HandleNext(p, now);
        ReachesTrans(old(model), logs, before, model);
        if !ok {
          return;
        }
        StoredGrows(logs, rows, store.rows, p, old(next)[p], from);
      }
      ok := true;
    }

    /** getmany: the position moves past the returned records. */
    method Poll(upTo: seq<nat>) returns (ok: bool)
      requires Valid() && connected && next == position
      requires C.Below(position, upTo) && C.Below(upTo, C.Lens(logs))
      modifies this
      ensures Valid() && Reaches(old(model), logs, model)
      ensures ok == connected == !faults(old(tick)) && receivedCount == old(receivedCount) && checksumErrors == old(checksumErrors)
      ensures ok ==> position == upTo && next == old(next) && offsets == old(offsets)
    {
      ReachesSelf(model, logs);
      ok := Await();
      if ok {
        ReachesStep(model, logs, model, C.Poll(upTo));
        model := C.Step(model, logs, C.Poll(upTo)).value;
        position := upTo;
      } else {
        ReachesStep(model, logs, model, C.Raise);
        Drop();
      }
    }

    /** _update_lag: an exception leaves the old estimate. */
    method UpdateLag()
      requires Valid() && connected && next == position
      modifies this`model, this`tick, this`lagEstimate
      ensures Valid() && Reaches(old(model), logs, model)
      ensures faults(old(tick)) ==> lagEstimate == old(lagEstimate)
      ensures !faults(old(tick)) ==> lagEstimate == |set p, i | 0 <= p < |logs| && position[p] <= i < |logs[p]| :: (p, i)|
    {
      var ok := Await();
      LagIsUnread(logs, position);
      LagSteps(model, logs, next);
      if ok {
        lagEstimate := C.TotalLag(C.Lens(logs), position);
        model := model.(lag := lagEstimate);
      }
    }

    /** One turn of the _consume loop. */
    method ConsumePass(upTo: seq<nat>, now: Utc) returns (ok: bool)
      requires Valid() && connected && next == position
      requires C.Below(position, upTo) && C.Below(upTo, C.Lens(logs))
      modifies this, store
      ensures Valid() && Reaches(old(model), logs, model)
      ensures ok == connected
      ensures Undisturbed(faults) && (forall p, i :: 0 <= p < |logs| && old(next)[p] <= i < upTo[p] ==> !logs[p][i].Malformed?) ==> ok
      ensures ok ==> next == position == upTo
      ensures ok ==> forall p :: 0 <= p < |logs| ==> Stored(logs, store.rows, p, old(next)[p], upTo[p])
      ensures ok ==> forall p :: 0 <= p < |logs| ==>
        offsets[p] == if old(next)[p] < upTo[p] then upTo[p] else old(offsets)[p]
      ensures ok && (forall p, i :: 0 <= p < |logs| && old(next)[p] <= i < upTo[p] ==> !WrongChecksum(store.sha256, logs[p][i])) ==>
        checksumErrors == old(checksumErrors)
      ensures ok ==> receivedCount - old(receivedCount) == |store.rows| - |old(store.rows)|
      ensures forall id :: id in old(store.rows) ==> id in store.rows
    {
      ok := Poll(upTo);
      if !ok {
        return;
      }
      for p := 0 to |logs|
        invariant Valid() && connected && Reaches(old(model), logs, model)
        invariant position == upTo && |next| == |offsets| == |logs|
        invariant forall q :: 0 <= q < p ==> next[q] == upTo[q] && Stored(logs, store.rows, q, old(next)[q], upTo[q])
        invariant forall q :: 0 <= q < p ==> offsets[q] == if old(next)[q] < upTo[q] then upTo[q] else old(offsets)[q]
        invariant (forall q, i :: 0 <= q < |logs| && old(next)[q] <= i < upTo[q] ==> !WrongChecksum(store.sha256, logs[q][i])) ==>
          checksumErrors == old(checksumErrors)
        invariant forall q :: p <= q < |logs| ==> next[q] == old(next)[q] && offsets[q] == old(offsets)[q]
        invariant receivedCount - old(receivedCount) == |store.rows| - |old(store.rows)|
        invariant forall id :: id in old(store.rows) ==> id in store.rows
      {
        ghost var before := model;
        ok := HandlePartition(p, now);
        ReachesTrans(old(model), logs, before, model);
        if !ok {
          return;
        }
      }
      ghost var before := model;
      UpdateLag();
      ReachesTrans(old(model), logs, before, model);
    }
  }

  lemma LagIsUnread(logs: Logs, position: seq<nat>)
    requires |position| == |logs|
    ensures C.TotalLag(C.Lens(logs), position) == |set p, i | 0 <= p < |logs| && position[p] <= i < |logs[p]| :: (p, i)|
  {
    C.LagCountsUnread(C.Lens(logs), position);
    assert (set p, i | 0 <= p < |C.Lens(logs)| && position[p] <= i < C.Lens(logs)[p] :: (p, i))
        == set p, i | 0 <= p < |logs| && position[p] <= i < |logs[p]| :: (p, i);
  }

  lemma LagSteps(s: C.Consumer, logs: Logs, next: seq<nat>)
    requires s.session == Some(C.Session(next, next, C.Polling)) && |next| == |logs|
    ensures Reaches(s, logs, s)
    ensures Reaches(s, logs, s.(lag := C.TotalLag(C.Lens(logs), next)))
  {
    var sampling := s.(session := Some(C.Session(next, next, C.Lag(C.Lens(logs)))));
    ReachesSelf(s, logs);
    ReachesStep(s, logs, s, C.SampleLag);
    assert C.Step(s, logs, C.SampleLag) == Some(sampling);
    ReachesStep(s, logs, sampling, C.LagDone);
  }

  lemma {:induction false} StepsTrans(s: C.Consumer, logs: Logs, s1: C.Consumer, run: seq<C.Action>)
    requires Reaches(s, logs, s1) && Steps(s1, logs, run).Some?
    ensures Reaches(s, logs, Steps(s1, logs, run).value)
  {
    if run != [] {
      var shorter := run[..|run| - 1];
      StepsTrans(s, logs, s1, shorter);
      ReachesStep(s, logs, Steps(s1, logs, shorter).value, run[|run| - 1]);
    }
  }

  lemma ReachesTrans(s: C.Consumer, logs: Logs, s1: C.Consumer, s2: C.Consumer)
    requires Reaches(s, logs, s1) && Reaches(s1, logs, s2)
    ensures Reaches(s, logs, s2)
  {
    var run :| Steps(s1, logs, run) == Some(s2);
    StepsTrans(s, logs, s1, run);
  }
}
