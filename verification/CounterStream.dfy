/** The wrapping counter stream 1..M, 1..M, ... and what the judge makes of a lossy copy of it. */
module CounterStream {
  import opened IntSets
  import opened Judge

  /** The k-th counter of the stream, from 0. */
  function Stream(m: int, k: nat): int
    requires m >= 1
  {
    k % m + 1
  }

  // ---- the producer ---------------------------------------------------------------

  class CounterProducer {
    var sentCounter: int
    var totalSent: nat
    var topic: seq<int>        // the counters sent, in order

    constructor ()
      ensures sentCounter == 0 && totalSent == 0 && topic == []
    {
      sentCounter, totalSent, topic := 0, 0, [];
    }

    /** One turn of _loop: a send that succeeds is recorded and the counter moves on; after a failed
        send everything is as before, and the same counter comes again. */
    method Turn(counterMax: int, counter: int, ok: bool) returns (counter': int)
      requires counterMax >= 1
      modifies this
      ensures ok ==> topic == old(topic) + [counter] && sentCounter == counter && totalSent == old(totalSent) + 1
      ensures ok ==> counter' == counter % counterMax + 1
      ensures !ok ==> topic == old(topic) && sentCounter == old(sentCounter) && totalSent == old(totalSent) && counter' == counter
    {
      counter' := counter;
      if ok {
        topic := topic + [counter];
        sentCounter := counter;
        totalSent := totalSent + 1;
        counter' := counter % counterMax + 1;
      }
    }

    /** _loop, for one session in which the i-th send succeeds if ok[i].  The successful sends, and no
        others, are counted, and the one after k others carries the k-th counter of the stream from the
        start.  A session starts from the last counter sent, so after a stop that counter is sent
        twice, unless it was reset to 0 in between. */
    method Loop(counterMax: int, ok: seq<bool>)
      requires counterMax >= 1 && 0 <= sentCounter <= counterMax
      modifies this
      ensures 0 <= sentCounter <= counterMax
      ensures totalSent - old(totalSent) == |topic| - |old(topic)| == |set i | 0 <= i < |ok| && ok[i]|
      ensures old(topic) <= topic
      ensures var start := if old(sentCounter) > 0 then old(sentCounter) - 1 else 0;
        forall i :: 0 <= i < |ok| && ok[i] ==>
          var k := |set j | 0 <= j < i && ok[j]|;
          k < |topic| - |old(topic)| && topic[|old(topic)| + k] == (start + k) % counterMax + 1
      ensures var start := if old(sentCounter) > 0 then old(sentCounter) - 1 else 0;
        topic == old(topic) + Segment(counterMax, start, totalSent - old(totalSent))
      ensures |topic| > |old(topic)| ==> sentCounter == topic[|topic| - 1]
      ensures |topic| == |old(topic)| ==> sentCounter == old(sentCounter)
    {
      var counter := if sentCounter > 0 then sentCounter else 1;
      ghost var start := counter - 1;
      ghost var n := 0;
      SmallMod(start, counterMax);
      NoHits(ok);
      for i := 0 to |ok|
        invariant n == Hits(ok, i) && totalSent == old(totalSent) + n
        invariant topic == old(topic) + Segment(counterMax, start, n) && 0 <= sentCounter <= counterMax
        invariant counter == Stream(counterMax, start + n)
        invariant n > 0 ==> sentCounter == Stream(counterMax, start + n - 1)
        invariant n == 0 ==> sentCounter == old(sentCounter)
      {
        OneMoreTurn(ok, i);
        counter := Turn(counterMax, counter, ok[i]);
        if ok[i] {
          NextCounter(counterMax, start + n);
          LongerSegment(old(topic), counterMax, start, n);
          n := n + 1;
        }
      }
      SessionTopic(counterMax, start, ok, old(topic), topic);
    }
  }

  /** How many of the first n sends succeed. */
  ghost function Hits(ok: seq<bool>, n: nat): nat
    requires n <= |ok|
  {
    |HitsBelow(ok, n)|
  }

  ghost function HitsBelow(ok: seq<bool>, n: nat): set<int>
    requires n <= |ok|
  {
    set i | 0 <= i < n && ok[i]
  }

  lemma NoHits(ok: seq<bool>)
    ensures Hits(ok, 0) == 0
  {
    assert HitsBelow(ok, 0) == {};
  }

  lemma OneMoreTurn(ok: seq<bool>, n: nat)
    requires n < |ok|
    ensures Hits(ok, n + 1) == Hits(ok, n) + if ok[n] then 1 else 0
  {
    assert HitsBelow(ok, n + 1) == HitsBelow(ok, n) + if ok[n] then {n} else {};
  }

  lemma {:induction false} HitsGrow(ok: seq<bool>, i: nat, n: nat)
    requires i < n <= |ok| && ok[i]
    ensures Hits(ok, i) < Hits(ok, n)
    decreases n
  {
    OneMoreTurn(ok, n - 1);
    if i < n - 1 { HitsGrow(ok, i, n - 1); }
  }

  /** The send at turn i is element Hits(ok, i) of the segment. */
  lemma HitsAt(m: int, start: nat, ok: seq<bool>)
    requires m >= 1
    ensures forall i :: 0 <= i < |ok| && ok[i] ==>
      var k := |set j | 0 <= j < i && ok[j]|;
      k < Hits(ok, |ok|) && Segment(m, start, Hits(ok, |ok|))[k] == (start + k) % m + 1
  {
    forall i | 0 <= i < |ok| && ok[i]
      ensures var k := |set j | 0 <= j < i && ok[j]|;
        k < Hits(ok, |ok|) && Segment(m, start, Hits(ok, |ok|))[k] == (start + k) % m + 1
    {
      HitsGrow(ok, i, |ok|);
      assert HitsBelow(ok, i) == set j | 0 <= j < i && ok[j];
      SegmentAt(m, start, Hits(ok, |ok|), Hits(ok, i));
    }
  }

  /** What a session has sent, read off turn by turn. */
  lemma SessionTopic(m: int, start: nat, ok: seq<bool>, before: seq<int>, topic: seq<int>)
    requires m >= 1 && topic == before + Segment(m, start, Hits(ok, |ok|))
    ensures |topic| - |before| == Hits(ok, |ok|) == |set i | 0 <= i < |ok| && ok[i]| && before <= topic
    ensures |topic| > |before| ==> topic[|topic| - 1] == Stream(m, start + Hits(ok, |ok|) - 1)
    ensures forall i :: 0 <= i < |ok| && ok[i] ==>
      var k := |set j | 0 <= j < i && ok[j]|;
      k < |topic| - |before| && topic[|before| + k] == (start + k) % m + 1
  {
    HitsAt(m, start, ok);
    assert HitsBelow(ok, |ok|) == set i | 0 <= i < |ok| && ok[i];
  }

  /** n counters of the stream from position `start` on. */
  function Segment(m: int, start: nat, n: nat): (s: seq<int>)
    requires m >= 1
    ensures |s| == n
  {
    if n == 0 then [] else Segment(m, start, n - 1) + [Stream(m, start + n - 1)]
  }

  lemma LongerSegment(before: seq<int>, m: int, start: nat, n: nat)
    requires m >= 1
    ensures before + Segment(m, start, n) + [Stream(m, start + n)] == before + Segment(m, start, n + 1)
  {
  }

  lemma NextCounter(m: int, k: nat)
    requires m >= 1
    ensures Stream(m, k) % m + 1 == Stream(m, k + 1) && 0 <= Stream(m, k) <= m
  {
    NextMod(k, m);
  }

  /** So in a session from a reset counter the k-th successful send carries (k - 1) mod M + 1. */
  lemma {:induction false} SegmentAt(m: int, start: nat, n: nat, k: nat)
    requires m >= 1 && k < n
    ensures Segment(m, start, n)[k] == (start + k) % m + 1
  {
    if k < n - 1 { SegmentAt(m, start, n - 1, k); }
  }

  // ---- division facts ----------------------------------------------------------------

  lemma SmallMod(a: nat, m: int)
    requires a < m
    ensures a % m == a && a / m == 0
  {
  }

  /** How quotient and remainder go on by one. */
  lemma NextMod(k: nat, m: int)
    requires m >= 1
    ensures (k + 1) % m == (if k % m + 1 == m then 0 else k % m + 1)
    ensures (k + 1) / m == k / m + (if (k + 1) % m == 0 then 1 else 0)
    ensures (k % m + 1) % m + 1 == (k + 1) % m + 1
  {
    var q, r := k / m, k % m;
    assert k == q * m + r && 0 <= r < m;
    if r + 1 == m {
      assert k + 1 == (q + 1) * m;
      DivUnique(k + 1, m, q + 1, 0);
      DivUnique(m, m, 1, 0);
    } else {
      DivUnique(k + 1, m, q, r + 1);
      DivUnique(r + 1, m, 0, r + 1);
    }
  }

  lemma DivUnique(k: int, m: int, q: int, r: int)
    requires m >= 1 && k == q * m + r && 0 <= r < m
    ensures k / m == q && k % m == r
  {
    SplitUnique(q, r, k / m, k % m, m);
  }

  lemma SplitUnique(q: int, r: int, q': int, r': int, m: int)
    requires q * m + r == q' * m + r' && 0 <= r < m && 0 <= r' < m
    ensures q == q' && r == r'
  {
    MulBounds(q - q', m);
    assert (q - q') * m == r' - r;
  }

  lemma MulBounds(d: int, m: int)
    requires m >= 1
    ensures d >= 1 ==> d * m >= m
    ensures d <= -1 ==> d * m <= -m
  {
  }

  /** The start of the round that position k is in. */
  function Base(m: int, k: nat): nat
    requires m >= 1
  {
    k - k % m
  }

  lemma {:induction false} InRound(m: int, b: nat, k: nat)
    requires m >= 1 && b % m == 0 && b <= k < b + m
    ensures k % m == k - b && Base(m, k) == b
    decreases k - b
  {
    if k > b {
      InRound(m, b, k - 1);
      NextMod(k - 1, m);
    }
  }

  lemma {:induction false} BaseStarts(m: int, k: nat)
    requires m >= 1
    ensures Base(m, k) % m == 0 && Base(m, k) <= k < Base(m, k) + m
  {
    if k > 0 {
      BaseStarts(m, k - 1);
      NextMod(k - 1, m);
    } else {
      SmallMod(0, m);
    }
  }

  // ---- a lossy copy ------------------------------------------------------------------

  /** Which positions of the stream are delivered, in order, each once. */
  predicate Delivered(d: seq<nat>) {
    forall i, j :: 0 <= i < j < |d| ==> d[i] < d[j]
  }

  /** The judge's history for a delivery; `now(k)` is the clock when position k arrives. */
  ghost function History(m: int, d: seq<nat>, now: nat -> string): (h: seq<Event>)
    requires m >= 1
    ensures |h| == |d| && Positive(h)
    ensures forall i :: 0 <= i < |d| ==> h[i].counter == Stream(m, d[i])
  {
    seq(|d|, i requires 0 <= i < |d| => Event(Stream(m, d[i]), now(d[i])))
  }

  lemma HistoryInit(m: int, d: seq<nat>, now: nat -> string)
    requires m >= 1 && d != []
    ensures History(m, d, now)[..|d| - 1] == History(m, d[..|d| - 1], now)
  {
  }

  /** The stream has a 1 at position k. */
  predicate IsOne(m: int, k: nat)
    requires m >= 1
  {
    k % m == 0
  }

  /** Every wrap-around after the first delivered position, up to the last, is delivered. */
  ghost predicate KeepsOnes(m: int, d: seq<nat>)
    requires m >= 1
  {
    d != [] ==> forall k: nat :: d[0] < k <= d[|d| - 1] && IsOne(m, k) ==> k in d
  }

  /** The wraps the judge counts never exceed the wraps that happened since the first delivery, and
      equal them exactly if every 1 since then was delivered. */
  lemma {:induction false} RestartsCountWraps(m: int, d: seq<nat>, now: nat -> string)
    requires m >= 1 && Delivered(d) && d != []
    ensures Restarts(History(m, d, now)) <= d[|d| - 1] / m - d[0] / m
    ensures Restarts(History(m, d, now)) == d[|d| - 1] / m - d[0] / m <==> KeepsOnes(m, d)
  {
    var init, x := d[..|d| - 1], d[|d| - 1];
    HistoryInit(m, d, now);
    if |d| > 1 {
      var y := init[|init| - 1];
      RestartsCountWraps(m, init, now);
      WrapsBetween(m, y, x);
      assert d == init + [x];
      OnesSoFar(m, init, x);
      assert Stream(m, x) == 1 <==> x % m == 0;
    }
  }

  lemma OnesSoFar(m: int, d: seq<nat>, x: nat)
    requires m >= 1 && d != [] && Delivered(d + [x])
    ensures KeepsOnes(m, d + [x]) <==> KeepsOnes(m, d) && forall k: nat :: d[|d| - 1] < k < x ==> !IsOne(m, k)
    ensures Delivered(d) && d[|d| - 1] < x
  {
    var e := d + [x];
    assert e[..|d|] == d && e[0] == d[0];
    AllButLast(e);
    if KeepsOnes(m, e) {
      assert forall k: nat :: d[|d| - 1] < k < x ==> k !in e;
    }
  }

  /** Between two positions, the second counted, the quotient grows once for each multiple. */
  lemma {:induction false} WrapsBetween(m: int, y: nat, x: nat)
    requires m >= 1 && y < x
    ensures x / m - y / m >= if x % m == 0 then 1 else 0
    ensures x / m - y / m == (if x % m == 0 then 1 else 0) <==> forall k: nat :: y < k < x ==> !IsOne(m, k)
    decreases x - y
  {
    NextMod(x - 1, m);
    if y < x - 1 {
      WrapsBetween(m, y, x - 1);
      assert IsOne(m, x - 1) <==> (x - 1) % m == 0;
      assert (forall k: nat :: y < k < x ==> !IsOne(m, k)) <==> (forall k: nat :: y < k < x - 1 ==> !IsOne(m, k)) && !IsOne(m, x - 1);
    }
  }

  /** `cycle` is the number of completed wraps of the stream at the last delivered position, if and
      only if something of the first round was delivered and every later 1 up to then was. */
  lemma CycleIsExact(m: int, d: seq<nat>, now: nat -> string)
    requires m >= 1 && Delivered(d) && d != []
    ensures Replay(History(m, d, now)).cycle == d[|d| - 1] / m <==> d[0] < m && KeepsOnes(m, d)
  {
    JudgeAgreesWithHistory(History(m, d, now));
    RestartsCountWraps(m, d, now);
    QuotientZero(d[0], m);
  }

  lemma QuotientZero(k: nat, m: int)
    requires m >= 1
    ensures k / m >= 0 && (k / m == 0 <==> k < m)
  {
    if k >= m {
      assert k == k / m * m + k % m;
    }
  }

  /** The counter c of the round that starts at position b was delivered. */
  predicate Came(m: int, d: seq<nat>, b: nat, c: int) {
    1 <= c <= m && b + c - 1 in d
  }

  /** The current round's 1 was delivered, or nothing before the current round was. */
  ghost predicate RoundIsClean(m: int, d: seq<nat>)
    requires m >= 1 && d != []
  {
    var b := Base(m, d[|d| - 1]);
    b in d || b <= d[0]
  }

  /** Then what the judge holds is exactly what was delivered of the current round. */
  lemma {:induction false} ReceivedIsRound(m: int, d: seq<nat>, now: nat -> string)
    requires m >= 1 && Delivered(d) && d != [] && RoundIsClean(m, d)
    ensures var b := Base(m, d[|d| - 1]);
      forall c :: c in Replay(History(m, d, now)).received <==> Came(m, d, b, c)
  {
    var init, x := d[..|d| - 1], d[|d| - 1];
    HistoryInit(m, d, now);
    BaseStarts(m, x);
    AllButLast(d);
    ReplayStep(History(m, d, now));
    if x % m == 0 {
      RoundRestarts(m, d);
    } else if init == [] {
      assert d == [x];
    } else {
      var y := init[|init| - 1];
      InRound(m, Base(m, x), y);
      assert Base(m, x) in d ==> Base(m, x) in init;
      ReceivedIsRound(m, init, now);
      RoundGoesOn(m, d, Replay(History(m, init, now)).received);
    }
  }

  lemma RoundRestarts(m: int, d: seq<nat>)
    requires m >= 1 && Delivered(d) && d != [] && d[|d| - 1] % m == 0
    ensures var b := Base(m, d[|d| - 1]);
      forall c :: Came(m, d, b, c) <==> c == 1
  {
    AllButLast(d);
    var x := d[|d| - 1];
    assert x in d;
    forall c: int ensures Came(m, d, x, c) <==> c == 1 {
      if Came(m, d, x, c) {
        var k: nat := x + c - 1;
        assert k in d;
      }
    }
  }

  lemma RoundGoesOn(m: int, d: seq<nat>, received: set<int>)
    requires m >= 1 && Delivered(d) && d != []
    requires var b := Base(m, d[|d| - 1]);
      forall c :: c in received <==> Came(m, d[..|d| - 1], b, c)
    ensures var b := Base(m, d[|d| - 1]);
      forall c: int :: c in received || c == Stream(m, d[|d| - 1]) <==> Came(m, d, b, c)
  {
    AllButLast(d);
    BaseStarts(m, d[|d| - 1]);
  }

  lemma AllButLast(d: seq<nat>)
    requires Delivered(d) && d != []
    ensures var init, x := d[..|d| - 1], d[|d| - 1];
      && Delivered(init)
      && (forall k: nat :: k in d <==> k in init || k == x)
      && (forall k: nat :: k in init ==> d[0] == init[0] <= k <= init[|init| - 1] < x)
  {
    assert d == d[..|d| - 1] + [d[|d| - 1]];
  }

  lemma ReplayStep(h: seq<Event>)
    requires h != []
    ensures var c := h[|h| - 1].counter;
      Replay(h).received == if c == 1 || |h| == 1 then {c} else Replay(h[..|h| - 1]).received + {c}
  {
    assert |h| == 1 ==> Replay(h[..0]) == FRESH;
  }

  /** The missing list is exactly the set of dropped counters of the current round below its highest
      delivered one. */
  ghost predicate ListIsExact(m: int, d: seq<nat>, received: set<int>)
    requires m >= 1 && d != []
  {
    var last := d[|d| - 1];
    forall c :: c in Missing(received) <==> 1 <= c < Stream(m, last) && !Came(m, d, Base(m, last), c)
  }

  lemma CleanIsExact(m: int, d: seq<nat>, now: nat -> string)
    requires m >= 1 && Delivered(d) && d != [] && RoundIsClean(m, d)
    ensures ListIsExact(m, d, Replay(History(m, d, now)).received)
  {
    var received := Replay(History(m, d, now)).received;
    ReceivedIsRound(m, d, now);
    HighestIsLast(m, d, received);
    BelowHighest(received, Stream(m, d[|d| - 1]));
  }

  // ---- a round that is not clean ---------------------------------------------------------

  /** The counter c was delivered, in whatever round. */
  ghost predicate Shown(m: int, d: seq<nat>, c: int)
    requires m >= 1
  {
    exists k: nat :: k in d && Stream(m, k) == c
  }

  /** What is left over from earlier rounds does no harm: no 1 was ever delivered, every leftover below
      the current round's highest came again in it, and there is no gap from there up to the highest
      leftover. */
  ghost predicate Harmless(m: int, d: seq<nat>)
    requires m >= 1 && d != []
  {
    var top := Stream(m, d[|d| - 1]);
    && (forall k: nat :: k in d ==> !IsOne(m, k))
    && (forall c :: c < top && Shown(m, d, c) ==> Came(m, d, Base(m, d[|d| - 1]), c))
    && (forall c, k: nat :: k in d && top <= c <= Stream(m, k) ==> Shown(m, d, c))
  }

  /** Without a 1 the judge never starts a round, and holds everything. */
  lemma {:induction false} NothingDropped(m: int, d: seq<nat>, now: nat -> string)
    requires m >= 1 && d != [] && forall k: nat :: k in d ==> !IsOne(m, k)
    ensures forall c :: c in Replay(History(m, d, now)).received <==> Shown(m, d, c)
  {
    var init, x := d[..|d| - 1], d[|d| - 1];
    HistoryInit(m, d, now);
    ReplayStep(History(m, d, now));
    assert d == init + [x];
    assert x in d && !IsOne(m, x);
    if init != [] {
      assert forall k: nat :: k in init ==> k in d;
      NothingDropped(m, init, now);
    }
    ShownMore(m, init, x);
  }

  lemma ShownMore(m: int, d: seq<nat>, x: nat)
    requires m >= 1
    ensures forall c :: Shown(m, d + [x], c) <==> c == Stream(m, x) || Shown(m, d, c)
  {
    forall c ensures Shown(m, d + [x], c) <==> c == Stream(m, x) || Shown(m, d, c) {
      assert x in d + [x];
      if k: nat :| k in d && Stream(m, k) == c {
        assert k in d + [x];
      }
    }
  }

  /** After a 1, the judge holds a 1. */
  lemma {:induction false} OneIsHeld(m: int, d: seq<nat>, now: nat -> string, k: nat)
    requires m >= 1 && k in d && IsOne(m, k)
    ensures 1 in Replay(History(m, d, now)).received
  {
    var init, x := d[..|d| - 1], d[|d| - 1];
    HistoryInit(m, d, now);
    ReplayStep(History(m, d, now));
    assert d == init + [x];
    if !IsOne(m, x) {
      assert k in init;
      OneIsHeld(m, init, now, k);
    }
  }

  /** In a round that is not clean, 1 is missing. */
  lemma UncleanMissesOne(m: int, d: seq<nat>)
    requires m >= 1 && Delivered(d) && d != [] && !RoundIsClean(m, d)
    ensures 1 < Stream(m, d[|d| - 1]) && !Came(m, d, Base(m, d[|d| - 1]), 1)
  {
    var last := d[|d| - 1];
    BaseStarts(m, last);
    assert last in d;
  }

  /** Counter test exactness: what the judge reports missing is exactly the set of dropped counters of
      the current round below its highest delivered one, if and only if the round is clean or what is
      left over from earlier ones does no harm. */
  lemma MissingIsExact(m: int, d: seq<nat>, now: nat -> string)
    requires m >= 1 && Delivered(d) && d != []
    ensures ListIsExact(m, d, Replay(History(m, d, now)).received) <==> RoundIsClean(m, d) || Harmless(m, d)
  {
    var received := Replay(History(m, d, now)).received;
    if RoundIsClean(m, d) {
      CleanIsExact(m, d, now);
    } else {
      UncleanMissesOne(m, d);
      if k: nat :| k in d && IsOne(m, k) {
        OneIsHeld(m, d, now, k);
        HeldIsNotMissing(received, 1);
      } else {
        NothingDropped(m, d, now);
        LeftoversDecide(m, d, received);
      }
    }
  }

  lemma HeldIsNotMissing(received: set<int>, c: int)
    requires c in received
    ensures c !in Missing(received)
  {
  }

  lemma LeftoversDecide(m: int, d: seq<nat>, received: set<int>)
    requires m >= 1 && d != [] && (forall k: nat :: k in d ==> !IsOne(m, k))
    requires forall c :: c in received <==> Shown(m, d, c)
    ensures ListIsExact(m, d, received) <==> Harmless(m, d)
  {
    LastIsShown(m, d);
    var highest := MaxOf(received);
    BelowHighest(received, highest);
    if ListIsExact(m, d, received) {
      ExactIsHarmless(m, d, received, highest);
    }
    if Harmless(m, d) {
      HarmlessIsExact(m, d, received, highest);
    }
  }

  lemma LastIsShown(m: int, d: seq<nat>)
    requires m >= 1 && d != []
    ensures Shown(m, d, Stream(m, d[|d| - 1]))
    ensures forall c :: Shown(m, d, c) ==> c >= 1
    ensures forall c :: Came(m, d, Base(m, d[|d| - 1]), c) ==> Shown(m, d, c)
  {
    var last := d[|d| - 1];
    assert last in d;
    forall c | Shown(m, d, c) ensures c >= 1 {
      var k: nat :| k in d && Stream(m, k) == c;
      SmallStream(m, k);
    }
    forall c | Came(m, d, Base(m, last), c) ensures Shown(m, d, c) {
      BaseStarts(m, last);
      InRound(m, Base(m, last), Base(m, last) + c - 1);
    }
  }

  lemma SmallStream(m: int, k: nat)
    requires m >= 1
    ensures Stream(m, k) >= 1
  {
  }

  lemma ExactIsHarmless(m: int, d: seq<nat>, received: set<int>, highest: int)
    requires m >= 1 && d != [] && (forall k: nat :: k in d ==> !IsOne(m, k))
    requires forall c :: c in received <==> Shown(m, d, c)
    requires (forall c :: Shown(m, d, c) ==> 1 <= c <= highest) && Shown(m, d, highest)
    requires forall c :: c in Missing(received) <==> 1 <= c < highest && c !in received
    requires ListIsExact(m, d, received) && Shown(m, d, Stream(m, d[|d| - 1]))
    ensures Harmless(m, d)
  {
    var top := Stream(m, d[|d| - 1]);
    forall c | c < top && Shown(m, d, c) ensures Came(m, d, Base(m, d[|d| - 1]), c) {
      assert c !in Missing(received);
    }
    forall c, k: nat | k in d && top <= c <= Stream(m, k) ensures Shown(m, d, c) {
      assert Shown(m, d, Stream(m, k));
      assert c !in Missing(received);
    }
  }

  lemma HarmlessIsExact(m: int, d: seq<nat>, received: set<int>, highest: int)
    requires m >= 1 && d != [] && Harmless(m, d)
    requires forall c :: c in received <==> Shown(m, d, c)
    requires (forall c :: Shown(m, d, c) ==> 1 <= c <= highest) && Shown(m, d, highest)
    requires forall c :: c in Missing(received) <==> 1 <= c < highest && c !in received
    requires Shown(m, d, Stream(m, d[|d| - 1]))
    requires forall c :: Came(m, d, Base(m, d[|d| - 1]), c) ==> Shown(m, d, c)
    ensures ListIsExact(m, d, received)
  {
    var k: nat :| k in d && Stream(m, k) == highest;
    var top := Stream(m, d[|d| - 1]);
    forall c | c in Missing(received) ensures c < top {
      assert c <= Stream(m, k);
    }
  }

  lemma BelowHighest(received: set<int>, highest: int)
    requires received != {} && MaxOf(received) == highest
    ensures forall c :: c in Missing(received) <==> 1 <= c < highest && c !in received
  {
  }

  lemma HighestIsLast(m: int, d: seq<nat>, received: set<int>)
    requires m >= 1 && Delivered(d) && d != []
    requires var b := Base(m, d[|d| - 1]); forall c :: c in received <==> Came(m, d, b, c)
    ensures received != {} && MaxOf(received) == Stream(m, d[|d| - 1])
  {
    var last := d[|d| - 1];
    var b := Base(m, last);
    BaseStarts(m, last);
    AllButLast(d);
    assert Came(m, d, b, Stream(m, last));
    forall c | c in received ensures c <= Stream(m, last) {
      assert Came(m, d, b, c);
      var k: nat := b + c - 1;
      assert k in d;
    }
  }

  /** Both at once, for any duplicate-free delivery that keeps every 1 up to its end. */
  lemma KeepingEveryOneIsEnough(m: int, d: seq<nat>, now: nat -> string)
    requires m >= 1 && Delivered(d) && d != []
    requires forall k: nat :: k <= d[|d| - 1] && IsOne(m, k) ==> k in d
    ensures Replay(History(m, d, now)).cycle == d[|d| - 1] / m
    ensures ListIsExact(m, d, Replay(History(m, d, now)).received)
  {
    SmallMod(0, m);
    assert 0 in d;
    BaseStarts(m, d[|d| - 1]);
    CycleIsExact(m, d, now);
    CleanIsExact(m, d, now);
  }
}
