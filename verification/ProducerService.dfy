/** Message generation and its accounting. */
module ProducerService {
  import opened Messages

  const RECENT := 50

  /** How send_message ends for one message: it returned (True or False), it raised, or it was cut
      off by a cancellation. */
  datatype Handoff = Returned(delivered: bool) | Raised | Cancelled

  /** One iteration of the produce loop, and whether the statistics are reset during it. */
  datatype Turn = Turn(handoff: Handoff, resetInFlight: bool, resetAsleep: bool)

  /** The ring holds the last RECENT of the hand-offs, in order. */
  ghost predicate IsRing(ring: seq<Message>, handedOff: seq<Message>) {
    && |ring| == (if |handedOff| < RECENT then |handedOff| else RECENT)
    && forall i :: 0 <= i < |ring| ==> ring[i] == handedOff[|handedOff| - |ring| + i]
  }

  lemma RingMoves(ring: seq<Message>, handedOff: seq<Message>, ring': seq<Message>, m: Message)
    requires IsRing(ring, handedOff)
    requires |ring'| == (if |ring| < RECENT then |ring| + 1 else RECENT) && ring'[|ring'| - 1] == m
    requires forall i :: 0 <= i < |ring'| - 1 ==> ring'[i] == ring[|ring| + 1 - |ring'| + i]
    ensures IsRing(ring', handedOff + [m])
  {
    forall i | 0 <= i < |ring'| ensures ring'[i] == (handedOff + [m])[|handedOff| + 1 - |ring'| + i] {
      if i < |ring'| - 1 {
        assert ring'[i] == ring[|ring| + 1 - |ring'| + i];
      }
    }
  }

  /** Strictly increasing sequence numbers. */
  predicate Increasing(s: seq<Message>) {
    forall i, j :: 0 <= i < j < |s| ==> s[i].sequence < s[j].sequence
  }

  class Service {
    const producerId: string
    const sha256: string -> string
    var running: bool
    var sequenceCounter: nat
    var sentCount: nat
    var errorCount: nat
    var recent: seq<Message>          // the bounded deque
    var emaRate: real
    var lastSentCount: nat
    ghost var handedOff: seq<Message> // everything send_message returned for, since the last reset
    ghost var cancelled: nat          // messages cut off in send_message, since the last reset
    ghost var inFlight: bool          // the last message is in send_message
    ghost var base: nat               // the numbers up to here were accounted for before the last reset

    /** Every number drawn is accounted for, once: as sent, as an error, as cancelled, or in flight.
        The deque is the tail of the hand-offs, whose numbers strictly increase. */
    ghost predicate Valid()
      reads this
    {
      && sequenceCounter - base == sentCount + errorCount + cancelled + InFlight()
      && |handedOff| == sentCount && lastSentCount <= sentCount
      && IsRing(recent, handedOff)
      && Increasing(handedOff)
      && Between(base, handedOff, sequenceCounter - InFlight())
      && Signed(handedOff, producerId, sha256)
    }

    ghost function InFlight(): nat
      reads this
    {
      if inFlight then 1 else 0
    }

    constructor (producerId: string, sha256: string -> string)
      ensures Valid() && sequenceCounter == 0 && recent == [] && emaRate == 0.0 && !running && !inFlight
    {
      this.producerId, this.sha256 := producerId, sha256;
      running, sequenceCounter, sentCount, errorCount, recent := false, 0, 0, 0, [];
      emaRate, lastSentCount, handedOff, cancelled, inFlight, base := 0.0, 0, [], 0, false, 0;
    }

    /** Can come at any await; a message in flight is then accounted for after the reset. */
    method ResetStats()
      requires Valid()
      modifies this
      ensures Valid() && sequenceCounter == old(sequenceCounter) && inFlight == old(inFlight)
      ensures base == sequenceCounter - InFlight() && cancelled == 0 && handedOff == []
      ensures sentCount == errorCount == lastSentCount == 0 && emaRate == 0.0 && recent == []
    {
      sentCount, errorCount, lastSentCount, emaRate, recent := 0, 0, 0, 0.0, [];
      handedOff, cancelled, base := [], 0, sequenceCounter - InFlight();
    }

    /** The next number, under a given id and random payload. */
    method GenerateMessage(id: string, data: string) returns (m: Message)
      modifies this`sequenceCounter
      ensures sequenceCounter == old(sequenceCounter) + 1
      ensures m == Message(id, sequenceCounter, producerId, data, sha256(data))
      ensures m.checksum == sha256(m.data)
    {
      sequenceCounter := sequenceCounter + 1;
      m := Message(id, sequenceCounter, producerId, data, sha256(data));
    }

    /** deque.append with maxlen: the new message is last, and the first one goes if there are too many. */
    method Remember(m: Message)
      requires |recent| <= RECENT
      modifies this`recent
      ensures |recent| == (if |old(recent)| < 50 then |old(recent)| + 1 else 50)
      ensures recent[|recent| - 1] == m
      ensures forall i :: 0 <= i < |recent| - 1 ==> recent[i] == old(recent)[|old(recent)| + 1 - |recent| + i]
    {
      recent := recent + [m];
      if |recent| > RECENT {
        recent := recent[1..];
      }
    }

    /** The first half of an iteration: a message is drawn and send_message is entered. */
    method Draw(id: string, data: string) returns (m: Message)
      requires Valid() && !inFlight
      modifies this`sequenceCounter, this`inFlight
      ensures Valid() && inFlight && sequenceCounter == old(sequenceCounter) + 1
      ensures m == Message(id, sequenceCounter, producerId, data, sha256(data))
    {
      m := GenerateMessage(id, data);
      inFlight := true;
    }

    /** The second half: send_message ends, in one of three ways. */
    method Settle(m: Message, handoff: Handoff)
      requires Valid() && inFlight
      requires m.sequence == sequenceCounter && m.producer == producerId && m.checksum == sha256(m.data)
      modifies this
      ensures Valid() && !inFlight && base == old(base) && sequenceCounter == old(sequenceCounter)
      ensures handedOff == old(handedOff) + if handoff.Returned? then [m] else []
      ensures sentCount == old(sentCount) + if handoff.Returned? then 1 else 0
      ensures handoff.Returned? ==> recent != [] && recent[|recent| - 1] == m
      ensures !handoff.Returned? ==> recent == old(recent)
      ensures errorCount == old(errorCount) + if handoff.Raised? then 1 else 0
      ensures cancelled == old(cancelled) + if handoff.Cancelled? then 1 else 0
    {
      match handoff
      case Returned(_) =>
        CountAsSent(m);
      case Raised =>
        errorCount, inFlight := errorCount + 1, false;
      case Cancelled =>
        cancelled, inFlight := cancelled + 1, false;
    }

    /** Delivered or buffered, the message counts as sent and goes into the ring. */
    method CountAsSent(m: Message)
      requires Valid() && inFlight
      requires m.sequence == sequenceCounter && m.producer == producerId && m.checksum == sha256(m.data)
      modifies this`sentCount, this`recent, this`handedOff, this`inFlight
      ensures Valid() && !inFlight && handedOff == old(handedOff) + [m] && sentCount == old(sentCount) + 1
      ensures recent != [] && recent[|recent| - 1] == m
    {
      OneMoreHandoff(handedOff, m, base, sequenceCounter, producerId, sha256);
      sentCount := sentCount + 1;
      ghost var ring := recent;
      Remember(m);
      RingMoves(ring, handedOff, recent, m);
      handedOff, inFlight := handedOff + [m], false;
    }

    /** One turn of _produce_loop: a message is drawn, send_message ends in one of three ways, and the
        statistics may be reset while it runs or while the loop sleeps afterwards. */
    method OneTurn(ids: nat -> string, payloads: nat -> string, turn: Turn)
      requires Valid() && !inFlight
      modifies this
      ensures Valid() && !inFlight && sequenceCounter == old(sequenceCounter) + 1
      ensures !turn.resetInFlight && !turn.resetAsleep ==> Undisturbed(turn.handoff, ids, payloads)
    {
      var m := Draw(ids(sequenceCounter), payloads(sequenceCounter));
      if turn.resetInFlight {
        ResetStats();
      }
      Settle(m, turn.handoff);
      if turn.resetAsleep && !turn.handoff.Cancelled? {
        ResetStats();
      }
    }

    /** The message just drawn was counted once, and handed off if send_message returned. */
    twostate predicate Undisturbed(handoff: Handoff, ids: nat -> string, payloads: nat -> string)
      reads this
    {
      && base == old(base)
      && sentCount == old(sentCount) + (if handoff.Returned? then 1 else 0)
      && errorCount == old(errorCount) + (if handoff.Raised? then 1 else 0)
      && cancelled == old(cancelled) + (if handoff.Cancelled? then 1 else 0)
      && handedOff == old(handedOff) + (if handoff.Returned? then [Drawn(old(sequenceCounter), ids, payloads)] else [])
    }

    /** The same, as part of a session: what was true of n turns is true of n + 1. */
    method SessionTurn(ids: nat -> string, payloads: nat -> string, turns: seq<Turn>, n: nat,
                       ghost sent: nat, ghost errors: nat, ghost cut: nat, ghost handed: seq<Message>, ghost from: nat, ghost start: nat)
      requires Valid() && !inFlight && n < |turns| && sequenceCounter == start + n
      modifies this
      ensures Valid() && !inFlight && sequenceCounter == old(sequenceCounter) + 1
      ensures var was := old(Since(sent, errors, cut, handed, from, start, turns, n, ids, payloads));
        was && !turns[n].resetInFlight && !turns[n].resetAsleep ==>
          Since(sent, errors, cut, handed, from, start, turns, n + 1, ids, payloads)
    {
      ghost var s, e, c, before := sentCount, errorCount, cancelled, handedOff;
      ghost var was := Since(sent, errors, cut, handed, from, start, turns, n, ids, payloads);
      OneTurn(ids, payloads, turns[n]);
      if was && !turns[n].resetInFlight && !turns[n].resetAsleep {
        OneMoreTurn(turns, n, s - sent, e - errors, c - cut);
        MoreFromTurns(before, handedOff, |handed|, start, turns, n, ids, payloads);
      }
    }

    /** The message that is drawn when n numbers are used up. */
    ghost function Drawn(n: nat, ids: nat -> string, payloads: nat -> string): Message {
      Message(ids(n), n + 1, producerId, payloads(n), sha256(payloads(n)))
    }

    /** The messages among `handed` were drawn in turns that returned. */
    ghost predicate FromTurns(handed: seq<Message>, start: nat, turns: seq<Turn>, n: nat, ids: nat -> string, payloads: nat -> string)
      requires n <= |turns|
    {
      forall m :: m in handed ==> exists k :: 0 <= k < n && turns[k].handoff.Returned? && m == Drawn(start + k, ids, payloads)
    }

    /** _produce_loop until it is stopped: one turn per message, until a cancellation; statistics may
        be reset while a message is in flight or while the loop sleeps.  The numbers drawn since the
        last reset are those of the sent, the failed and the cancelled messages; the ring holds the last
        50 messages that send_message returned for, the newest last. */
    method ProduceLoop(ids: nat -> string, payloads: nat -> string, turns: seq<Turn>)
      requires Valid() && !inFlight
      modifies this
      ensures Valid() && !inFlight
      ensures old(sequenceCounter) <= sequenceCounter <= old(sequenceCounter) + |turns|
      ensures sequenceCounter - base == sentCount + errorCount + cancelled && |handedOff| == sentCount
      ensures |recent| == (if |handedOff| < 50 then |handedOff| else 50)
      ensures forall i :: 0 <= i < |recent| ==> recent[i] == handedOff[|handedOff| - |recent| + i]
      ensures Increasing(handedOff)
      ensures var ran := sequenceCounter - old(sequenceCounter);
        && (forall i :: 0 <= i < ran - 1 ==> !turns[i].handoff.Cancelled?)
        && (ran < |turns| ==> ran > 0 && turns[ran - 1].handoff.Cancelled?)
      ensures (forall t :: t in turns ==> !t.resetInFlight && !t.resetAsleep) ==>
        var ran := sequenceCounter - old(sequenceCounter);
        && base == old(base) && old(handedOff) <= handedOff
        && sentCount - old(sentCount) == |set i | 0 <= i < ran && turns[i].handoff.Returned?|
        && errorCount - old(errorCount) == |set i | 0 <= i < ran && turns[i].handoff.Raised?|
        && cancelled - old(cancelled) == |set i | 0 <= i < ran && turns[i].handoff.Cancelled?|
        && FromTurns(handedOff[|old(handedOff)|..], old(sequenceCounter), turns, ran, ids, payloads)
    {
      ghost var plain := forall t :: t in turns ==> !t.resetInFlight && !t.resetAsleep;
      NoTurns(turns);
      var i := 0;
      while i < |turns|
        invariant 0 <= i <= |turns| && Valid() && !inFlight
        invariant sequenceCounter == old(sequenceCounter) + i
        invariant forall k :: 0 <= k < i ==> !turns[k].handoff.Cancelled?
        invariant plain ==> Since(old(sentCount), old(errorCount), old(cancelled), old(handedOff), old(base), old(sequenceCounter), turns, i, ids, payloads)
      {
        assert turns[i] in turns;
        SessionTurn(ids, payloads, turns, i, old(sentCount), old(errorCount), old(cancelled), old(handedOff), old(base), old(sequenceCounter));
        i := i + 1;
        if turns[i - 1].handoff.Cancelled? {
          break;
        }
      }
      TallyMeans(turns, i);
    }

    /** What an undisturbed session of n turns has done since the given state. */
    ghost predicate Since(sent: nat, errors: nat, cut: nat, handed: seq<Message>, from: nat, start: nat,
                          turns: seq<Turn>, n: nat, ids: nat -> string, payloads: nat -> string)
      requires n <= |turns|
      reads this
    {
      && base == from && handed <= handedOff
      && Tallied(turns, n, sentCount - sent, errorCount - errors, cancelled - cut)
      && FromTurns(handedOff[|handed|..], start, turns, n, ids, payloads)
    }

    lemma MoreFromTurns(before: seq<Message>, after: seq<Message>, k: nat, start: nat, turns: seq<Turn>, n: nat,
                        ids: nat -> string, payloads: nat -> string)
      requires n < |turns| && k <= |before| && FromTurns(before[k..], start, turns, n, ids, payloads)
      requires after == before + if turns[n].handoff.Returned? then [Drawn(start + n, ids, payloads)] else []
      ensures FromTurns(after[k..], start, turns, n + 1, ids, payloads)
    {
      forall m | m in after[k..]
        ensures exists j :: 0 <= j < n + 1 && turns[j].handoff.Returned? && m == Drawn(start + j, ids, payloads)
      {
        var at :| k <= at < |after| && after[at] == m;
        if at < |before| {
          assert m in before[k..];
        }
      }
    }

    /** The moving average of the per-tick growth of sent_count, with weight 0.3: each tick takes in
        the growth since the last one, and the estimate's distance from that growth shrinks to 0.7 of
        what it was. */
    method UpdateRateMetric()
      requires Valid()
      modifies this`lastSentCount, this`emaRate
      ensures Valid() && lastSentCount == sentCount
      ensures var growth := (sentCount - old(lastSentCount)) as real;
        emaRate - growth == 0.7 * (old(emaRate) - growth)
      ensures emaRate == Smoothed(old(emaRate), (sentCount - old(lastSentCount)) as real)
    {
      var delta := sentCount - lastSentCount;
      lastSentCount := sentCount;
      emaRate := 0.3 * delta as real + (1.0 - 0.3) * emaRate;
    }
  }

  // ---- counting turns ------------------------------------------------------------------

  ghost function ReturnedTurns(turns: seq<Turn>, n: nat): set<int>
    requires n <= |turns|
  {
    set i | 0 <= i < n && turns[i].handoff.Returned?
  }

  ghost function RaisedTurns(turns: seq<Turn>, n: nat): set<int>
    requires n <= |turns|
  {
    set i | 0 <= i < n && turns[i].handoff.Raised?
  }

  ghost function CancelledTurns(turns: seq<Turn>, n: nat): set<int>
    requires n <= |turns|
  {
    set i | 0 <= i < n && turns[i].handoff.Cancelled?
  }

  /** Of the first n turns so many ended in each way. */
  ghost predicate Tallied(turns: seq<Turn>, n: nat, sent: int, errors: int, cancelled: int)
    requires n <= |turns|
  {
    sent == |ReturnedTurns(turns, n)| && errors == |RaisedTurns(turns, n)| && cancelled == |CancelledTurns(turns, n)|
  }

  lemma NoTurns(turns: seq<Turn>)
    ensures Tallied(turns, 0, 0, 0, 0)
  {
    assert ReturnedTurns(turns, 0) == RaisedTurns(turns, 0) == CancelledTurns(turns, 0) == {};
  }

  lemma TallyMeans(turns: seq<Turn>, n: nat)
    requires n <= |turns|
    ensures forall s, e, c :: Tallied(turns, n, s, e, c) ==>
      && s == |set i | 0 <= i < n && turns[i].handoff.Returned?|
      && e == |set i | 0 <= i < n && turns[i].handoff.Raised?|
      && c == |set i | 0 <= i < n && turns[i].handoff.Cancelled?|
  {
    assert ReturnedTurns(turns, n) == set i | 0 <= i < n && turns[i].handoff.Returned?;
    assert RaisedTurns(turns, n) == set i | 0 <= i < n && turns[i].handoff.Raised?;
    assert CancelledTurns(turns, n) == set i | 0 <= i < n && turns[i].handoff.Cancelled?;
  }

  lemma OneMoreTurn(turns: seq<Turn>, n: nat, sent: int, errors: int, cancelled: int)
    requires n < |turns| && Tallied(turns, n, sent, errors, cancelled)
    ensures var h := turns[n].handoff;
      Tallied(turns, n + 1, sent + (if h.Returned? then 1 else 0), errors + (if h.Raised? then 1 else 0),
              cancelled + (if h.Cancelled? then 1 else 0))
  {
    OneMoreReturned(turns, n);
    OneMoreRaised(turns, n);
    OneMoreCancelled(turns, n);
  }

  lemma OneMoreReturned(turns: seq<Turn>, n: nat)
    requires n < |turns|
    ensures |ReturnedTurns(turns, n + 1)| == |ReturnedTurns(turns, n)| + if turns[n].handoff.Returned? then 1 else 0
  {
    assert ReturnedTurns(turns, n + 1) == ReturnedTurns(turns, n) + if turns[n].handoff.Returned? then {n} else {};
  }

  lemma OneMoreRaised(turns: seq<Turn>, n: nat)
    requires n < |turns|
    ensures |RaisedTurns(turns, n + 1)| == |RaisedTurns(turns, n)| + if turns[n].handoff.Raised? then 1 else 0
  {
    assert RaisedTurns(turns, n + 1) == RaisedTurns(turns, n) + if turns[n].handoff.Raised? then {n} else {};
  }

  lemma OneMoreCancelled(turns: seq<Turn>, n: nat)
    requires n < |turns|
    ensures |CancelledTurns(turns, n + 1)| == |CancelledTurns(turns, n)| + if turns[n].handoff.Cancelled? then 1 else 0
  {
    assert CancelledTurns(turns, n + 1) == CancelledTurns(turns, n) + if turns[n].handoff.Cancelled? then {n} else {};
  }

  ghost predicate Between(lo: int, s: seq<Message>, hi: int) {
    forall m :: m in s ==> lo < m.sequence <= hi
  }

  ghost predicate Signed(s: seq<Message>, producer: string, sha256: string -> string) {
    forall m :: m in s ==> m.producer == producer && m.checksum == sha256(m.data)
  }

  /** One more hand-off, with the next number. */
  lemma OneMoreHandoff(s: seq<Message>, m: Message, lo: int, hi: int, producer: string, sha256: string -> string)
    requires Increasing(s) && Between(lo, s, hi - 1) && Signed(s, producer, sha256)
    requires lo < m.sequence == hi && m.producer == producer && m.checksum == sha256(m.data)
    ensures Increasing(s + [m]) && Between(lo, s + [m], hi) && Signed(s + [m], producer, sha256)
  {
    IncreasingAppend(s, m);
  }

  lemma IncreasingAppend(s: seq<Message>, m: Message)
    requires Increasing(s) && forall x :: x in s ==> x.sequence < m.sequence
    ensures Increasing(s + [m])
  {
    assert forall i :: 0 <= i < |s| ==> s[i] in s;
  }

  // ---- the rate estimate ---------------------------------------------------------------

  function Smoothed(rate: real, delta: real): real {
    0.3 * delta + (1.0 - 0.3) * rate
  }

  /** The estimate after n ticks of a constant growth f. */
  function After(rate: real, f: real, n: nat): real {
    if n == 0 then rate else Smoothed(After(rate, f, n - 1), f)
  }

  function Power(x: real, n: nat): real {
    if n == 0 then 1.0 else x * Power(x, n - 1)
  }

  /** Under a constant load the error shrinks by the factor 0.7 each tick. */
  lemma {:induction false} ErrorDecays(rate: real, f: real, n: nat)
    ensures After(rate, f, n) - f == Power(0.7, n) * (rate - f)
  {
    if n > 0 {
      ErrorDecays(rate, f, n - 1);
      var before := After(rate, f, n - 1);
      assert After(rate, f, n) - f == 0.7 * (before - f);
      Associative(0.7, Power(0.7, n - 1), rate - f);
    }
  }

  lemma Associative(a: real, b: real, c: real)
    ensures a * (b * c) == a * b * c
  {
  }
}
