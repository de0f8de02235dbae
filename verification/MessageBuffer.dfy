/** The SQLite message buffer of the producer. */
module MessageBuffer {
  import opened Messages
  import opened BufferTable
  import opened BufferHistory
  import opened FlushSpec

  /** Which statement of an add raises, if any. */
  datatype AddFault = NoFault | CountFails | DeleteFails | InsertFails | CommitFails

  /** What one add does to the table of an open buffer, and what it returns.  When the COUNT raises,
      count_pending answers 0 and nothing is evicted; any other exception ends the add, and what was
      executed before it stays in the open transaction. */
  function AddTo(rows: seq<Row>, m: Message, now: real, capacity: nat, fault: AddFault): (seq<Row>, bool) {
    var pending := if fault.CountFails? then 0 else |Pending(rows)|;
    if pending >= capacity && fault.DeleteFails? then (rows, false)
    else
      var room := if pending >= capacity then DeleteOldestPending(rows) else rows;
      if fault.InsertFails? then (room, false)
      else (InsertOrIgnore(room, m, now), !fault.CommitFails?)
  }

  /** The add evicts the oldest pending message. */
  predicate Evicts(rows: seq<Row>, capacity: nat, fault: AddFault) {
    |Pending(rows)| >= capacity && !fault.CountFails? && !fault.DeleteFails?
  }

  /** The add reaches its INSERT. */
  predicate Inserts(rows: seq<Row>, capacity: nat, fault: AddFault) {
    !fault.InsertFails? && !(fault.DeleteFails? && |Pending(rows)| >= capacity)
  }

  function Room(rows: seq<Row>, capacity: nat, fault: AddFault): seq<Row> {
    if Evicts(rows, capacity, fault) then DeleteOldestPending(rows) else rows
  }

  /** What an add does to the queue.  A full queue loses its oldest message, and no other, unless its
      COUNT or DELETE fails; the new message gets in behind everything that was waiting if the INSERT
      is reached and succeeds (so an add that fails on its INSERT can lose the oldest message for
      nothing, and so can one whose id is already in the table); sent rows are left alone. */
  lemma AddKeepsNewest(rows: seq<Row>, m: Message, now: real, capacity: nat, fault: AddFault)
    requires Chronological(rows) && forall r :: r in rows ==> r.createdAt < now
    requires capacity >= 1
    ensures var (rows', ok) := AddTo(rows, m, now, capacity, fault);
      var waiting := if Evicts(rows, capacity, fault) then Pending(rows)[1..] else Pending(rows);
      var enters := Inserts(rows, capacity, fault) && !HasId(Room(rows, capacity, fault), m.id);
      && Chronological(rows')
      && Pending(rows') == waiting + (if enters then [Row(m, now, false)] else [])
      && (ok ==> Inserts(rows, capacity, fault))
      && (forall r :: r in rows && r.sent ==> r in rows')
      && (Evicts(rows, capacity, fault) ==> forall r :: r in Pending(rows') ==> Pending(rows)[0].createdAt < r.createdAt)
      && (!HasId(rows, m.id) ==> !HasId(Room(rows, capacity, fault), m.id))
  {
    var room := Room(rows, capacity, fault);
    if Evicts(rows, capacity, fault) {
      MakeRoom(rows);
    }
    if !HasId(room, m.id) {
      InsertLast(room, m, now);
    }
    assert Pending(room) + [] == Pending(room);
  }

  /** The bound, in numbers: only an add whose COUNT fails can lengthen a queue that is full. */
  lemma AddKeepsBound(rows: seq<Row>, m: Message, now: real, capacity: nat, fault: AddFault)
    requires Chronological(rows) && (forall r :: r in rows ==> r.createdAt < now) && capacity >= 1
    ensures var queue, queue' := |Pending(rows)|, |Pending(AddTo(rows, m, now, capacity, fault).0)|;
      queue >= capacity ==> queue' <= queue + 1 && (queue' > queue <==> fault.CountFails? && !HasId(rows, m.id))
    ensures |Pending(rows)| < capacity ==> |Pending(AddTo(rows, m, now, capacity, fault).0)| <= capacity
  {
    AddKeepsNewest(rows, m, now, capacity, fault);
  }

  lemma MakeRoom(rows: seq<Row>)
    requires Chronological(rows) && Pending(rows) != []
    ensures var room := DeleteOldestPending(rows);
      && Chronological(room)
      && (forall r :: r in room ==> r in rows)
      && (forall r :: r in rows && r.sent ==> r in room)
      && (forall r :: r in Pending(room) ==> Pending(rows)[0].createdAt < r.createdAt)
  {
    DeleteKeepsOrder(rows);
    RowGone(rows);
  }

  lemma InsertLast(room: seq<Row>, m: Message, now: real)
    requires Chronological(room) && (forall r :: r in room ==> r.createdAt < now) && !HasId(room, m.id)
    ensures var rows := InsertOrIgnore(room, m, now);
      && Chronological(rows)
      && Pending(rows) == Pending(room) + [Row(m, now, false)]
      && (forall r :: r in room ==> r in rows)
  {
    PendingAppend(room, Row(m, now, false));
    ChronologicalAppend(room, Row(m, now, false));
  }

  /** After an add that returns True the id is in the table; no add touches a sent row. */
  lemma AddedHasId(rows: seq<Row>, m: Message, now: real, capacity: nat, fault: AddFault)
    ensures var (rows', ok) := AddTo(rows, m, now, capacity, fault);
      (ok ==> HasId(rows', m.id)) && forall r :: r in rows && r.sent ==> r in rows'
  {
    var room := Room(rows, capacity, fault);
    if !HasId(room, m.id) {
      assert Row(m, now, false) in room + [Row(m, now, false)];
    }
  }

  class Buffer {
    const capacity: nat        // BUFFER_MAX_SIZE
    var open: bool             // the connection exists, i.e. initialize() has run
    var rows: seq<Row>

    ghost predicate Valid()
      reads this
    {
      Chronological(rows)
    }

    constructor (capacity: nat)
      ensures Valid() && !open && rows == [] && this.capacity == capacity
    {
      this.capacity := capacity;
      open := false;
      rows := [];
    }

    method Initialize()
      modifies this
      ensures open && rows == old(rows)
    {
      open := true;
    }

    method Add(m: Message, now: real, fault: AddFault) returns (ok: bool)
      requires Valid() && forall r :: r in rows ==> r.createdAt < now
      modifies this
      ensures Valid() && open == old(open)
      ensures ok <==> open && !fault.InsertFails? && !fault.CommitFails? && !(fault.DeleteFails? && |Pending(old(rows))| >= capacity)
      ensures ok ==> HasId(rows, m.id)
      ensures !open ==> rows == old(rows)
      ensures open && capacity >= 1 && !HasId(old(rows), m.id) ==>
        var full := |Pending(old(rows))| >= capacity;
        var waiting := if full && !fault.CountFails? && !fault.DeleteFails? then Pending(old(rows))[1..] else Pending(old(rows));
        var entered := !fault.InsertFails? && !(full && fault.DeleteFails?);
        Pending(rows) == waiting + (if entered then [Row(m, now, false)] else [])
      ensures forall r :: r in old(rows) && r.sent ==> r in rows
      ensures (rows, ok) == if open then AddTo(old(rows), m, now, capacity, fault) else (old(rows), false)
    {
      if !open {
        return false;
      }
      AddedHasId(rows, m, now, capacity, fault);
      if capacity >= 1 {
        AddKeepsNewest(rows, m, now, capacity, fault);
      }
      var pending := CountPending(fault.CountFails?);
      if pending >= capacity {
        if fault.DeleteFails? {
          return false;
        }
        DeleteKeepsOrder(rows);
        rows := DeleteOldestPending(rows);
      }
      if fault.InsertFails? {
        return false;
      }
      if !HasId(rows, m.id) {
        ChronologicalAppend(rows, Row(m, now, false));
      }
      rows := InsertOrIgnore(rows, m, now);
      return !fault.CommitFails?;
    }

    /** mark_sent: the message leaves the queue, wherever it stands, the others keep their order, and
        no row is lost. */
    method MarkDelivered(id: string)
      requires Valid()
      modifies this
      ensures Valid() && open == old(open)
      ensures Pending(rows) == if open then Without(old(Pending(rows)), id) else old(Pending(rows))
      ensures |rows| == |old(rows)|
      ensures forall i :: 0 <= i < |rows| ==> rows[i] == old(rows)[i] || rows[i] == old(rows)[i].(sent := true)
      ensures rows == if open then MarkSent(old(rows), id) else old(rows)
    {
      if !open {
        return;
      }
      MarkKeepsOrder(rows, id);
      MarkRemoves(rows, id);
      rows := MarkSent(rows, id);
    }

    /** The oldest pending messages; nothing when the query raises. */
    method GetPending(limit: nat, raises: bool) returns (batch: seq<Message>)
      requires Valid()
      ensures |batch| == if !open || raises then 0 else if |Pending(rows)| <= limit then |Pending(rows)| else limit
      ensures forall i :: 0 <= i < |batch| ==> batch[i] == Pending(rows)[i].msg
      ensures forall i, j :: 0 <= i < j < |Pending(rows)| ==> Pending(rows)[i].createdAt < Pending(rows)[j].createdAt
      ensures batch == if open && !raises then Oldest(rows, limit) else []
      ensures Waiting(rows, batch)
    {
      PendingIsChronological(rows);
      ChronologicalAt(Pending(rows));
      if !open {
        return [];
      }
      if raises {
        return [];
      }
      OldestWaits(rows, limit);
      batch := Oldest(rows, limit);
    }

    method CountPending(raises: bool) returns (n: nat)
      ensures n == if open && !raises then |Pending(rows)| else 0
    {
      n := if open && !raises then |Pending(rows)| else 0;
    }

    /** Deletes sent rows only; the queue is untouched. */
    method CleanupSent(cutoff: real) returns (deleted: nat)
      requires Valid()
      modifies this
      ensures Valid() && open == old(open)
      ensures Pending(rows) == old(Pending(rows))
      ensures forall r :: r in rows <==> r in old(rows) && !(open && r.sent && r.createdAt < cutoff)
      ensures deleted == |old(rows)| - |rows|
    {
      if !open {
        return 0;
      }
      CleanKeepsOrder(rows, cutoff);
      deleted := |rows| - |DeleteSentBefore(rows, cutoff)|;
      rows := DeleteSentBefore(rows, cutoff);
    }
  }
}
