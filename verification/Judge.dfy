/** The counter-integrity judge. */
module Judge {
  import opened IntSets
  import opened Rates

  datatype State = State(received: set<int>, cycle: nat, firstMissingAt: map<int, string>)

  const FRESH := State({}, 0, map[])

  function Ceiling(received: set<int>): int {
    if received == {} then 0 else MaxOf(received)
  }

  /** setdefault(i, now) for every i of the range that is not in `received`. */
  function Noted(index: map<int, string>, received: set<int>, lo: int, hi: int, now: string): (r: map<int, string>)
    ensures forall i :: i in r <==> i in index || (lo <= i <= hi && i !in received)
    ensures forall i :: i in r ==> r[i] == if i in index then index[i] else now
    decreases hi - lo + 1
  {
    if lo > hi then index
    else
      var rest := Noted(index, received, lo, hi - 1, now);
      if hi in received || hi in rest then rest else rest[hi := now]
  }

  /** record(counter), at clock text `now`. */
  function Recorded(s: State, counter: int, now: string): State {
    var s0 := if counter == 1 && s.received != {} then State({}, s.cycle + 1, map[]) else s;
    var received := s0.received + {counter};
    State(received, s0.cycle, Noted(s0.firstMissingAt, received, Ceiling(s0.received) + 1, MaxOf(received), now))
  }

  /** What a record does, told without the loop: a 1 starts a new cycle, and the numbers noted are those
      that the record passes and that were not passed before in the cycle. */
  lemma RecordedMeans(s: State, counter: int, now: string)
    ensures var s' := Recorded(s, counter, now);
      var restarts := counter == 1 && s.received != {};
      && s'.received == (if counter == 1 then {} else s.received) + {counter}
      && s'.cycle == s.cycle + (if restarts then 1 else 0)
      && (counter >= 1 && (forall x :: x in s.received ==> x >= 1) ==>
           && (forall i :: i in s'.firstMissingAt <==>
                (!restarts && i in s.firstMissingAt) || (1 <= i < counter && forall x :: x in s.received ==> x < i))
           && (forall i :: i in s'.firstMissingAt ==>
                s'.firstMissingAt[i] == if !restarts && i in s.firstMissingAt then s.firstMissingAt[i] else now))
  {
  }

  /** [i for i in range(1, ceiling + 1) if i not in received] */
  function Missing(received: set<int>): seq<int> {
    if received == {} then [] else Absent(received, 1, MaxOf(received))
  }

  lemma MissingIsBelow(received: set<int>)
    ensures forall n :: n in Missing(received) <==> n >= 1 && n !in received && exists x :: x in received && n < x
  {
  }

  /** Completion in percent; a highest counter of 0 would make the source divide by zero. */
  function CompletionPct(received: set<int>): real
    requires received != {} ==> MaxOf(received) != 0
  {
    if received == {} then 0.0 else |received| as real / MaxOf(received) as real * 100.0
  }

  class CounterJudge {
    var received: set<int>
    var cycle: nat
    var firstMissingAt: map<int, string>

    function Value(): State
      reads this
    {
      State(received, cycle, firstMissingAt)
    }

    constructor ()
      ensures Value() == FRESH
    {
      received, cycle, firstMissingAt := {}, 0, map[];
    }

    method Reset()
      modifies this
      ensures Value() == FRESH
    {
      received, cycle, firstMissingAt := {}, 0, map[];
    }

    method Record(counter: int, now: string)
      modifies this
      ensures var kept := if counter == 1 then {} else old(received);
        && received == kept + {counter}
        && cycle == old(cycle) + (if counter == 1 && old(received) != {} then 1 else 0)
      ensures counter >= 1 && (forall x :: x in old(received) ==> x >= 1) ==>
        var restarts := counter == 1 && old(received) != {};
        && (forall i :: i in firstMissingAt <==> (!restarts && i in old(firstMissingAt)) || (1 <= i < counter && forall x :: x in old(received) ==> x < i))
        && (forall i :: i in firstMissingAt ==> firstMissingAt[i] == if !restarts && i in old(firstMissingAt) then old(firstMissingAt)[i] else now)
      ensures Value() == Recorded(old(Value()), counter, now)
    {
      if counter == 1 && received != {} {
        cycle := cycle + 1;
        received := {};
        firstMissingAt := map[];
      }
      var oldCeil := if received != {} then MaxOf(received) else 0;
      received := received + {counter};
      var newCeil := MaxOf(received);
      NoteMissing(oldCeil + 1, newCeil, now);
      RecordedMeans(old(Value()), counter, now);
    }

    /** The loop of record: note every new gap; an empty range notes nothing. */
    method NoteMissing(lo: int, hi: int, now: string)
      modifies this`firstMissingAt
      ensures firstMissingAt == Noted(old(firstMissingAt), received, lo, hi, now)
    {
      if hi >= lo {
        for i := lo to hi + 1
          invariant firstMissingAt == Noted(old(firstMissingAt), received, lo, i - 1, now)
        {
          if i !in received && i !in firstMissingAt {
            firstMissingAt := firstMissingAt[i := now];
          }
        }
      }
    }

    /** Each missing number with the time it was first noticed, or "" if that was never noted. */
    method MissingWithTimestamps() returns (r: seq<(int, string)>)
      ensures |r| == |Missing(received)|
      ensures forall i :: 0 <= i < |r| ==>
        r[i] == (Missing(received)[i], if Missing(received)[i] in firstMissingAt then firstMissingAt[Missing(received)[i]] else "")
      ensures forall i, j :: 0 <= i < j < |r| ==> r[i].0 < r[j].0
      ensures forall n :: (exists i :: 0 <= i < |r| && r[i].0 == n) <==> n >= 1 && n !in received && exists x :: x in received && n < x
      ensures forall i :: 0 <= i < |r| ==> r[i].1 == if r[i].0 in firstMissingAt then firstMissingAt[r[i].0] else ""
    {
      var m, index := Missing(received), firstMissingAt;
      r := seq(|m|, i requires 0 <= i < |m| => (m[i], if m[i] in index then index[m[i]] else ""));
      PairsList(r, m);
      MissingIsBelow(received);
    }
  }

  lemma PairsList(r: seq<(int, string)>, m: seq<int>)
    requires |r| == |m| && Ascending(m) && forall i :: 0 <= i < |r| ==> r[i].0 == m[i]
    ensures forall i, j :: 0 <= i < j < |r| ==> r[i].0 < r[j].0
    ensures forall n :: (exists i :: 0 <= i < |r| && r[i].0 == n) <==> n in m
  {
    forall n | n in m ensures exists i :: 0 <= i < |r| && r[i].0 == n {
      var i :| 0 <= i < |m| && m[i] == n;
      assert r[i].0 == n;
    }
  }

  // ---- histories --------------------------------------------------------------------

  datatype Event = Event(counter: int, now: string)

  /** The judge after a history, from the start. */
  function Replay(h: seq<Event>): State {
    if h == [] then FRESH else Recorded(Replay(h[..|h| - 1]), h[|h| - 1].counter, h[|h| - 1].now)
  }

  /** The records of the current cycle: those from the last 1 on. */
  function Current(h: seq<Event>): seq<Event> {
    if h == [] then []
    else if h[|h| - 1].counter == 1 then [h[|h| - 1]]
    else Current(h[..|h| - 1]) + [h[|h| - 1]]
  }

  /** How many records after the first are 1s. */
  function Restarts(h: seq<Event>): nat {
    if |h| <= 1 then 0 else Restarts(h[..|h| - 1]) + if h[|h| - 1].counter == 1 then 1 else 0
  }

  predicate Positive(h: seq<Event>) {
    forall e :: e in h ==> e.counter >= 1
  }

  function Counters(c: seq<Event>): set<int> {
    set e | e in c :: e.counter
  }

  /** The number i was passed at position k of a cycle: c[k] is its first record above i, and i had
      not come by then. */
  ghost predicate PassedAt(c: seq<Event>, k: nat, i: int) {
    && k < |c| && c[k].counter > i >= 1
    && (forall j :: 0 <= j < k ==> c[j].counter < i)
  }

  /** The index is what a recomputation from the current cycle's records would give. */
  ghost predicate IndexIs(index: map<int, string>, c: seq<Event>) {
    && (forall i :: i in index ==> exists k: nat :: PassedAt(c, k, i))
    && (forall i, k: nat :: PassedAt(c, k, i) ==> i in index && index[i] == c[k].now)
  }

  /** After any history of positive counters the judge holds exactly the current cycle's records,
      has counted the restarts, and its incremental index equals the recomputed one. */
  lemma {:induction false} JudgeAgreesWithHistory(h: seq<Event>)
    requires Positive(h)
    ensures Replay(h).received == Counters(Current(h))
    ensures Replay(h).cycle == Restarts(h)
    ensures IndexIs(Replay(h).firstMissingAt, Current(h))
    ensures h == [] <==> Current(h) == []
    ensures Positive(Current(h))
  {
    if h != [] {
      var init, e := h[..|h| - 1], h[|h| - 1];
      assert e in h;
      JudgeAgreesWithHistory(init);
      var c := if e.counter == 1 then [] else Current(init);
      assert Current(h) == c + [e];
      assert Counters(c + [e]) == Counters(c) + {e.counter};
      var s0 := if e.counter == 1 && Replay(init).received != {} then State({}, Replay(init).cycle + 1, map[]) else Replay(init);
      assert init != [] ==> Current(init)[0] in Current(init) && Current(init)[0].counter in Replay(init).received;
      assert s0.received == Counters(c) && IndexIs(s0.firstMissingAt, c);
      IndexAdvances(s0.firstMissingAt, c, e);
    }
  }

  /** The index after one more record of the cycle. */
  ghost function Advanced(index: map<int, string>, c: seq<Event>, e: Event): map<int, string> {
    var received := Counters(c) + {e.counter};
    Noted(index, received, Ceiling(Counters(c)) + 1, MaxOf(received), e.now)
  }

  /** One more record: exactly the numbers between the old and the new ceiling are noted. */
  lemma IndexAdvances(index: map<int, string>, c: seq<Event>, e: Event)
    requires Positive(c) && e.counter >= 1 && IndexIs(index, c)
    ensures IndexIs(Advanced(index, c, e), c + [e])
  {
    forall i, k: nat | PassedAt(c + [e], k, i) ensures i in Advanced(index, c, e) && Advanced(index, c, e)[i] == (c + [e])[k].now {
      PassedIsNoted(index, c, e, i, k);
    }
    forall i | i in Advanced(index, c, e) ensures exists k: nat :: PassedAt(c + [e], k, i) {
      var k := NotedWasPassed(index, c, e, i);
    }
  }

  lemma PassedIsNoted(index: map<int, string>, c: seq<Event>, e: Event, i: int, k: nat)
    requires IndexIs(index, c) && PassedAt(c + [e], k, i)
    ensures i in Advanced(index, c, e) && Advanced(index, c, e)[i] == (c + [e])[k].now
  {
    var c' := c + [e];
    assert forall j: nat :: j < |c| ==> c'[j] == c[j];
    if k < |c| {
      assert PassedAt(c, k, i);
    } else {
      assert forall m: nat :: !PassedAt(c, m, i);
      AboveAll(c, i);
    }
  }

  lemma NotedWasPassed(index: map<int, string>, c: seq<Event>, e: Event, i: int) returns (k: nat)
    requires Positive(c) && e.counter >= 1 && IndexIs(index, c) && i in Advanced(index, c, e)
    ensures PassedAt(c + [e], k, i)
  {
    var c' := c + [e];
    assert forall j: nat :: j < |c| ==> c'[j] == c[j];
    if i in index {
      k :| PassedAt(c, k, i);
    } else {
      BelowCeiling(c);
      CeilingIsNatural(c);
      k := |c|;
    }
  }

  lemma CeilingIsNatural(c: seq<Event>)
    requires Positive(c)
    ensures Ceiling(Counters(c)) >= 0
  {
    if Counters(c) != {} {
      var e :| e in c && e.counter == MaxOf(Counters(c));
    }
  }

  lemma BelowCeiling(c: seq<Event>)
    ensures forall j: nat :: j < |c| ==> c[j].counter in Counters(c) && c[j].counter <= Ceiling(Counters(c))
  {
    forall j: nat | j < |c| ensures c[j].counter in Counters(c) && c[j].counter <= Ceiling(Counters(c)) {
      var e := c[j];
      assert e in c && e.counter in Counters(c);
    }
  }

  lemma AboveAll(c: seq<Event>, i: int)
    requires i >= 1 && forall j: nat :: j < |c| ==> c[j].counter < i
    ensures Ceiling(Counters(c)) < i && i !in Counters(c)
  {
    forall x | x in Counters(c) ensures x < i {
      var e :| e in c && e.counter == x;
      var j: nat :| j < |c| && c[j] == e;
    }
  }

  /** The judge's timestamped report after any history: it lists exactly the numbers below the
      highest of the current cycle that have not come, in order, each with the clock text of the
      first record of the cycle that passed it; the fallback text is never used. */
  lemma ReportIsExact(h: seq<Event>)
    requires Positive(h)
    ensures var s := Replay(h);
      && Ascending(Missing(s.received))
      && (forall i :: i in Missing(s.received) <==> i in s.firstMissingAt && i !in s.received)
      && (forall i :: i in Missing(s.received) ==> exists k: nat :: PassedAt(Current(h), k, i) && s.firstMissingAt[i] == Current(h)[k].now)
  {
    JudgeAgreesWithHistory(h);
    var s, c := Replay(h), Current(h);
    forall i | i in Missing(s.received) ensures exists k: nat :: PassedAt(c, k, i) {
      var k := MissingWasPassed(c, i);
    }
    forall i | i in s.firstMissingAt && i !in s.received ensures i in Missing(s.received) {
      var k: nat :| PassedAt(c, k, i);
      BelowCeiling(c);
    }
  }

  lemma MissingWasPassed(c: seq<Event>, i: int) returns (k: nat)
    requires i in Missing(Counters(c))
    ensures PassedAt(c, k, i)
  {
    var top := MaxOf(Counters(c));
    var j: nat :| j < |c| && c[j].counter == top;
    k := FirstAbove(c, j, i);
  }

  lemma {:induction false} FirstAbove(c: seq<Event>, j: nat, i: int) returns (k: nat)
    requires j < |c| && c[j].counter > i && i !in Counters(c)
    ensures k <= j && c[k].counter > i && forall n :: 0 <= n < k ==> c[n].counter < i
    decreases j
  {
    if m: nat :| m < j && c[m].counter > i {
      k := FirstAbove(c, m, i);
    } else {
      k := j;
      assert forall n :: 0 <= n < j ==> c[n] in c && c[n].counter in Counters(c);
    }
  }

  /** Received and missing together make up the range below the ceiling; completion is a percentage,
      and 100 exactly if nothing is missing. */
  lemma CountsAddUp(received: set<int>)
    requires received != {} && forall c :: c in received ==> c >= 1
    ensures |received| + |Missing(received)| == MaxOf(received)
    ensures 0.0 < CompletionPct(received) <= 100.0
    ensures CompletionPct(received) == 100.0 <==> Missing(received) == []
  {
    var top := MaxOf(received);
    AbsentCount(received, 1, top);
    RangeSize(1, top);
    assert received == received * RangeSet(1, top);
    Percent(|received|, top);
  }

  /** The percentage is what it is called: of the highest counter it makes the number received. */
  lemma CompletionIsPercentage(received: set<int>)
    requires received != {} && forall c :: c in received ==> c >= 1
    ensures CompletionPct(received) * MaxOf(received) as real == 100.0 * |received| as real
    ensures CompletionPct({}) == 0.0
  {
    PercentTimes(|received| as real, MaxOf(received) as real);
  }

  lemma PercentTimes(x: real, y: real)
    requires y > 0.0
    ensures x / y * 100.0 * y == 100.0 * x
  {
    assert x / y * 100.0 * y == x / y * y * 100.0;
  }

  lemma {:induction false} AbsentCount(s: set<int>, lo: int, hi: int)
    requires lo <= hi + 1
    ensures |s * RangeSet(lo, hi)| + |Absent(s, lo, hi)| == hi - lo + 1
    decreases hi - lo + 1
  {
    if lo <= hi {
      AbsentCount(s, lo + 1, hi);
      var rest := s * RangeSet(lo + 1, hi);
      assert s * RangeSet(lo, hi) == if lo in s then rest + {lo} else rest;
    } else {
      assert s * RangeSet(lo, hi) == {};
    }
  }

  lemma Percent(n: nat, top: nat)
    requires 0 < n <= top
    ensures 0.0 < n as real / top as real * 100.0 <= 100.0
    ensures n as real / top as real * 100.0 == 100.0 <==> n == top
  {
    FractionBounds(n, top);
    QuotientOne(n as real, top as real);
  }

  lemma QuotientOne(x: real, y: real)
    requires y > 0.0
    ensures x / y == 1.0 <==> x == y
  {
    assert x / y * y == x;
  }
}
