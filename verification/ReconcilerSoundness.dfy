/** The arbiter against the running pipeline: when is a sequence it reports missing really absent
    from the log, and not merely still unread by the consumer? */
module ReconcilerSoundness {
  import opened Messages
  import opened IntSets
  import opened KafkaLog
  import opened Reconciler
  import opened Delivery
  import opened DeliveryTheorems
  import C = ConsumerSystem

  // ---- order of first appearance in one partition log ------------------------------

  /** Offset i of the log holds the producer's message number s. */
  ghost predicate Holds(log: seq<Record>, i: nat, producer: string, s: int) {
    i < |log| && log[i].Good? && log[i].msg.producer == producer && log[i].msg.sequence == s
  }

  /** i is where the producer's number s first appears. */
  ghost predicate First(log: seq<Record>, i: nat, producer: string, s: int) {
    Holds(log, i, producer, s) && forall j: nat :: j < i ==> !Holds(log, j, producer, s)
  }

  ghost predicate FirstSeenInOrder(log: seq<Record>, producer: string) {
    forall s, t, i: nat, j: nat :: s < t && First(log, i, producer, s) && First(log, j, producer, t) ==> i < j
  }

  /** The producer's numbers among the first k records. */
  ghost predicate SeenBy(log: seq<Record>, k: nat, producer: string, s: int) {
    exists i: nat :: i < k && Holds(log, i, producer, s)
  }

  lemma {:induction false} FirstExists(log: seq<Record>, k: nat, producer: string, s: int) returns (i: nat)
    requires SeenBy(log, k, producer, s)
    ensures i < k && First(log, i, producer, s)
    decreases k
  {
    if SeenBy(log, k - 1, producer, s) {
      i := FirstExists(log, k - 1, producer, s);
    } else {
      i :| i < k && Holds(log, i, producer, s);
    }
  }

  /** No reader, however far it is, has passed a number while missing a smaller one that is in the
      log, if and only if the numbers first appear in increasing order. */
  lemma OrderIsExact(log: seq<Record>, producer: string)
    ensures FirstSeenInOrder(log, producer) <==>
      forall k: nat, s, w :: s <= w && SeenBy(log, k, producer, w) && SeenBy(log, |log|, producer, s) ==> SeenBy(log, k, producer, s)
  {
    if FirstSeenInOrder(log, producer) {
      forall k: nat, s, w | s <= w && SeenBy(log, k, producer, w) && SeenBy(log, |log|, producer, s) ensures SeenBy(log, k, producer, s) {
        var j := FirstExists(log, k, producer, w);
        var i := FirstExists(log, |log|, producer, s);
        assert s < w ==> i < j;
      }
    } else {
      var s, t, i: nat, j: nat :| s < t && First(log, i, producer, s) && First(log, j, producer, t) && !(i < j);
      assert SeenBy(log, j + 1, producer, t) && SeenBy(log, |log|, producer, s);
      assert !SeenBy(log, j + 1, producer, s);
    }
  }

  // ---- what the consumer knows -------------------------------------------------------

  /** The sequences in the consumer's table for a producer, as its gap query sees them. */
  ghost function Received(w: World, producer: string): set<int> {
    set id | id in w.cons.store.rows && w.cons.store.rows[id].producer == producer :: w.cons.store.rows[id].sequence
  }

  /** A complete record with the producer's number s is in the log. */
  ghost predicate InLog(w: World, producer: string, s: int) {
    exists m: Message :: Logged(w.logs, m) && m.producer == producer && m.sequence == s
  }

  /** A producer's records are all in its partition. */
  lemma InItsPartition(w: World, producer: string, s: int)
    requires Delivery.Inv(w)
    ensures InLog(w, producer, s) <==>
      Partition(w, producer) < |w.logs| && SeenBy(w.logs[Partition(w, producer)], |w.logs[Partition(w, producer)]|, producer, s)
  {
    var p := Partition(w, producer);
    if InLog(w, producer, s) {
      var m: Message :| Logged(w.logs, m) && m.producer == producer && m.sequence == s;
      var q: nat, i: nat :| At(w.logs, q, i, m);
      assert q == p && Holds(w.logs[p], i, producer, s);
    }
    if p < |w.logs| && SeenBy(w.logs[p], |w.logs[p]|, producer, s) {
      var i: nat :| i < |w.logs[p]| && Holds(w.logs[p], i, producer, s);
      assert At(w.logs, p, i, w.logs[p][i].msg);
    }
  }

  /** A record with the producer's number s has been saved, and cleanup_old has deleted its row. */
  ghost predicate Deleted(w: World, producer: string, s: int) {
    exists m: Message :: C.Read(w.logs, w.cons.store.prefix, m) && m.producer == producer && m.sequence == s
      && m.id in w.cons.store.pruned
  }

  /** The table holds a producer's number exactly if the number occurs in the prefix the consumer has
      saved, save for the numbers whose rows were deleted. */
  lemma ReceivedIsPrefix(w: World, producer: string, s: int)
    requires Delivery.Inv(w) && Partition(w, producer) < |w.logs|
    ensures var p := Partition(w, producer);
      && (s in Received(w, producer) ==> SeenBy(w.logs[p], w.cons.store.prefix[p], producer, s))
      && (SeenBy(w.logs[p], w.cons.store.prefix[p], producer, s) ==> s in Received(w, producer) || Deleted(w, producer, s))
      && (Deleted(w, producer, s) ==> SeenBy(w.logs[p], w.cons.store.prefix[p], producer, s))
  {
    var p := Partition(w, producer);
    if s in Received(w, producer) {
      var id :| id in w.cons.store.rows && w.cons.store.rows[id].producer == producer && w.cons.store.rows[id].sequence == s;
      ReadIsSeen(w, w.cons.store.rows[id]);
    }
    if SeenBy(w.logs[p], w.cons.store.prefix[p], producer, s) {
      SeenIsKept(w, producer, s);
    }
    if Deleted(w, producer, s) {
      var m: Message :| C.Read(w.logs, w.cons.store.prefix, m) && m.producer == producer && m.sequence == s;
      ReadIsSeen(w, m);
    }
  }

  lemma ReadIsSeen(w: World, m: Message)
    requires Delivery.Inv(w) && C.Read(w.logs, w.cons.store.prefix, m)
    ensures var p := Partition(w, m.producer);
      p < |w.logs| && SeenBy(w.logs[p], w.cons.store.prefix[p], m.producer, m.sequence)
  {
    var q: nat, i: nat :| At(w.logs, q, i, m) && q < |w.cons.store.prefix| && i < w.cons.store.prefix[q];
    assert Holds(w.logs[q], i, m.producer, m.sequence);
  }

  lemma SeenIsKept(w: World, producer: string, s: int)
    requires Delivery.Inv(w) && Partition(w, producer) < |w.logs|
    requires SeenBy(w.logs[Partition(w, producer)], w.cons.store.prefix[Partition(w, producer)], producer, s)
    ensures s in Received(w, producer) || Deleted(w, producer, s)
  {
    var p := Partition(w, producer);
    var i: nat :| i < w.cons.store.prefix[p] && Holds(w.logs[p], i, producer, s);
    var m := w.logs[p][i].msg;
    assert At(w.logs, p, i, m);
    assert C.Read(w.logs, w.cons.store.prefix, m);
    if m.id !in w.cons.store.pruned {
      RowOfRecord(w, p, i, m);
      assert w.cons.store.rows[m.id] == m;
    }
  }

  // ---- soundness ---------------------------------------------------------------------

  /** The audit the arbiter would produce now; `succeeds` says whether its gap query comes through. */
  ghost function AuditNow(w: World, url: string, producer: string, sent: set<int>, watermark: Option<int>,
                          succeeds: bool, threshold: real): Option<Audit> {
    Reconcile(url, producer, sent, watermark, Answers(Received(w, producer), succeeds), threshold)
  }

  /** Nothing that the audit lists is in the log. */
  ghost predicate NoFalseLoss(w: World, producer: string, a: Audit) {
    forall s :: s in a.missing ==> !InLog(w, producer, s)
  }

  /** What is reported under lag.  If the producer's numbers first appear in its partition in
      increasing order, then with any positive watermark the consumer has ever served, now or in the
      past, and an answered gap query, a sequence that is reported missing is in the log if and only if
      cleanup_old has deleted its row: a consumer that merely lags is never reported as a loss. */
  lemma ReportedUnderLag(w: World, url: string, producer: string, sent: set<int>, watermark: int, threshold: real)
    requires Reachable(w) && Partition(w, producer) < |w.logs|
    requires (producer, watermark) in w.cons.served && watermark > 0
    requires FirstSeenInOrder(w.logs[Partition(w, producer)], producer)
    requires Eligible(sent, Some(watermark)) != {} && Answered(Eligible(sent, Some(watermark)))
    ensures var a := AuditNow(w, url, producer, sent, Some(watermark), true, threshold);
      a.Some? && forall s :: s in a.value.missing ==> (InLog(w, producer, s) <==> Deleted(w, producer, s))
  {
    ReachableInv(w);
    ExactUnlessFailed(url, producer, sent, Some(watermark), Received(w, producer), true, threshold);
    forall s | s <= watermark && s !in Received(w, producer) ensures InLog(w, producer, s) <==> Deleted(w, producer, s) {
      UnreadIsNowhere(w, producer, watermark, s);
    }
  }

  /** Soundness under lag.  With nothing deleted, such a report lists nothing that is in the log, if and
      only if the gap query is answered or there is nothing of it in the log anyway. */
  lemma SoundUnderLag(w: World, url: string, producer: string, sent: set<int>, watermark: int, succeeds: bool, threshold: real)
    requires Reachable(w) && w.cons.store.pruned == {} && Partition(w, producer) < |w.logs|
    requires (producer, watermark) in w.cons.served && watermark > 0
    requires FirstSeenInOrder(w.logs[Partition(w, producer)], producer)
    requires Eligible(sent, Some(watermark)) != {}
    ensures var e := Eligible(sent, Some(watermark));
      var a := AuditNow(w, url, producer, sent, Some(watermark), succeeds, threshold);
      a.Some? && (NoFalseLoss(w, producer, a.value) <==>
        (succeeds && Answered(e)) || forall s :: s in e ==> !InLog(w, producer, s))
  {
    var e := Eligible(sent, Some(watermark));
    ExactUnlessFailed(url, producer, sent, Some(watermark), Received(w, producer), succeeds, threshold);
    if succeeds && Answered(e) {
      ReportedUnderLag(w, url, producer, sent, watermark, threshold);
    }
  }

  /** A number at or below a served watermark that has no row is in the log only if its row was deleted. */
  lemma UnreadIsNowhere(w: World, producer: string, watermark: int, s: int)
    requires Delivery.Inv(w) && Partition(w, producer) < |w.logs|
    requires (producer, watermark) in w.cons.served
    requires FirstSeenInOrder(w.logs[Partition(w, producer)], producer)
    requires s <= watermark && s !in Received(w, producer)
    ensures InLog(w, producer, s) <==> Deleted(w, producer, s)
  {
    var p := Partition(w, producer);
    OrderIsExact(w.logs[p], producer);
    ServedIsSeen(w, producer, watermark);
    ReceivedIsPrefix(w, producer, s);
    InItsPartition(w, producer, s);
    assert w.cons.store.prefix[p] <= C.Lens(w.logs)[p];
  }

  lemma ServedIsSeen(w: World, producer: string, watermark: int)
    requires Delivery.Inv(w) && (producer, watermark) in w.cons.served && Partition(w, producer) < |w.logs|
    ensures SeenBy(w.logs[Partition(w, producer)], w.cons.store.prefix[Partition(w, producer)], producer, watermark)
  {
    assert C.ReadSequence(w.logs, w.cons.store.prefix, producer, watermark);
    var m: Message :| C.Read(w.logs, w.cons.store.prefix, m) && m.producer == producer && m.sequence == watermark;
    var q: nat, i: nat :| At(w.logs, q, i, m) && q < |w.cons.store.prefix| && i < w.cons.store.prefix[q];
    assert Holds(w.logs[q], i, producer, watermark);
  }

  /** Every sent number that is in the log first appears in the prefix that the consumer has saved. */
  ghost predicate Covered(w: World, producer: string, sent: set<int>) {
    var p := Partition(w, producer);
    && p < |w.logs| && p < |w.cons.store.prefix|
    && forall s, i: nat :: s in sent && First(w.logs[p], i, producer, s) ==> i < w.cons.store.prefix[p]
  }

  /** No sent number has lost its row. */
  ghost predicate NoneLost(w: World, producer: string, sent: set<int>) {
    forall s :: s in sent && Deleted(w, producer, s) ==> s in Received(w, producer)
  }

  /** Without a usable watermark (the consumer has cached nothing for the producer, or its status
      call failed) there is no such protection: with an answered gap query, the report is sound if and
      only if the saved prefix of the producer's partition has come past the first appearance of every
      sent number and none of them has lost its row. */
  lemma NoWatermarkNoProtection(w: World, url: string, producer: string, sent: set<int>, watermark: Option<int>,
                                succeeds: bool, threshold: real)
    requires Reachable(w) && Partition(w, producer) < |w.logs|
    requires watermark.None? || watermark.value <= 0
    requires sent != {}
    ensures var a := AuditNow(w, url, producer, sent, watermark, succeeds, threshold);
      && a.Some?
      && (NoFalseLoss(w, producer, a.value) <==>
            if succeeds && Answered(sent) then Covered(w, producer, sent) && NoneLost(w, producer, sent)
            else forall s :: s in sent ==> !InLog(w, producer, s))
  {
    ReachableInv(w);
    ExactUnlessFailed(url, producer, sent, watermark, Received(w, producer), succeeds, threshold);
    CoveredIsReceived(w, producer, sent);
  }

  lemma CoveredIsReceived(w: World, producer: string, sent: set<int>)
    requires Delivery.Inv(w) && Partition(w, producer) < |w.logs|
    ensures Covered(w, producer, sent) && NoneLost(w, producer, sent) <==>
      forall s :: s in sent && InLog(w, producer, s) ==> s in Received(w, producer)
  {
    var p := Partition(w, producer);
    forall s, i: nat | First(w.logs[p], i, producer, s)
      ensures InLog(w, producer, s)
      ensures s in Received(w, producer) ==> i < w.cons.store.prefix[p]
      ensures i < w.cons.store.prefix[p] ==> s in Received(w, producer) || Deleted(w, producer, s)
    {
      InItsPartition(w, producer, s);
      ReceivedIsPrefix(w, producer, s);
    }
    forall s | InLog(w, producer, s) ensures exists i: nat :: First(w.logs[p], i, producer, s) {
      InItsPartition(w, producer, s);
      var i := FirstExists(w.logs[p], |w.logs[p]|, producer, s);
    }
    forall s | Deleted(w, producer, s) ensures InLog(w, producer, s) {
      DeletedIsLogged(w, producer, s);
    }
  }

  lemma DeletedIsLogged(w: World, producer: string, s: int)
    requires Deleted(w, producer, s)
    ensures InLog(w, producer, s)
  {
    var m: Message :| C.Read(w.logs, w.cons.store.prefix, m) && m.producer == producer && m.sequence == s;
    assert Logged(w.logs, m);
  }

  /** In particular a consumer without lag is enough, with or without a watermark, in order or not:
      when its saved prefix is the whole partition, a number that is reported missing is in the log only
      if its row was deleted. */
  lemma NoLagNoFalseLoss(w: World, url: string, producer: string, sent: set<int>, watermark: Option<int>, threshold: real)
    requires Reachable(w) && Partition(w, producer) < |w.logs|
    requires C.Below(C.Lens(w.logs), w.cons.store.prefix)
    requires Eligible(sent, watermark) != {} && Answered(Eligible(sent, watermark))
    ensures var a := AuditNow(w, url, producer, sent, watermark, true, threshold);
      a.Some? && forall s :: s in a.value.missing ==> (InLog(w, producer, s) <==> Deleted(w, producer, s))
  {
    ReachableInv(w);
    ExactUnlessFailed(url, producer, sent, watermark, Received(w, producer), true, threshold);
    forall s | s !in Received(w, producer) ensures InLog(w, producer, s) <==> Deleted(w, producer, s) {
      AllRead(w, producer, s);
    }
  }

  lemma AllRead(w: World, producer: string, s: int)
    requires Delivery.Inv(w) && Partition(w, producer) < |w.logs| && s !in Received(w, producer)
    requires C.Below(C.Lens(w.logs), w.cons.store.prefix)
    ensures InLog(w, producer, s) <==> Deleted(w, producer, s)
  {
    assert C.Lens(w.logs)[Partition(w, producer)] == |w.logs[Partition(w, producer)]|;
    InItsPartition(w, producer, s);
    ReceivedIsPrefix(w, producer, s);
    if Deleted(w, producer, s) {
      DeletedIsLogged(w, producer, s);
    }
  }

  // ---- the arbiter's pass over a running pipeline ------------------------------------------

  /** The consumer answers as the world's: a watermark that it has served at some time, and the gaps of
      the rows it has, unless the range is refused. */
  ghost predicate Serves(net: Network, w: World, url: string, producer: string) {
    && (net.watermark(url, producer).Some? ==> (producer, net.watermark(url, producer).value) in w.cons.served)
    && forall from, to :: net.missing(url, producer, from, to) == MissingRoute(Received(w, producer), from, to)
  }

  /** An entry of a pass's report, under a positive watermark and with an answered range: every number
      in it is listed by the producer, does not lie beyond the watermark, has no row, and is in the log
      only if its row was deleted.  A number that the consumer has not come to yet is not in it. */
  lemma PassUnderLag(w: World, net: Network, url: string, threshold: real, a: Audit)
    requires Reachable(w) && Partition(w, a.producer) < |w.logs| && IsAuditOf(a, net, url, threshold)
    requires Serves(net, w, url, a.producer)
    requires net.watermark(url, a.producer).Some? && net.watermark(url, a.producer).value > 0
    requires FirstSeenInOrder(w.logs[Partition(w, a.producer)], a.producer)
    requires forall from, to :: Spans(net, url, from, to) ==> 1 <= from && to - from <= 100000
    ensures forall s :: s in a.missing <==>
      && (exists m :: m in net.recent(url).messages && m.1 == s)
      && s <= net.watermark(url, a.producer).value && s !in Received(w, a.producer)
    ensures forall s :: s in a.missing ==> (InLog(w, a.producer, s) <==> Deleted(w, a.producer, s))
  {
    ReachableInv(w);
    var from, to := SomeSpan(a, net, url, threshold);
    forall from, to | Spans(net, url, from, to)
      ensures net.missing(url, a.producer, from, to) == Some(Absent(Received(w, a.producer), from, to))
    {
    }
    MissingHasNoRow(a, net, url, threshold, Received(w, a.producer));
    forall s | s in a.missing ensures InLog(w, a.producer, s) <==> Deleted(w, a.producer, s) {
      UnreadIsNowhere(w, a.producer, net.watermark(url, a.producer).value, s);
    }
  }

  /** For the producer behind this URL the consumer serves a positive watermark and an answered range,
      and the producer's numbers first appear in order. */
  ghost predicate ServedInOrder(w: World, net: Network, url: string) {
    net.recent(url).Recent? && net.recent(url).messages != [] ==>
      var producer := net.recent(url).messages[0].0;
      && Partition(w, producer) < |w.logs| && FirstSeenInOrder(w.logs[Partition(w, producer)], producer)
      && Serves(net, w, url, producer)
      && net.watermark(url, producer).Some? && net.watermark(url, producer).value > 0
      && forall from, to :: Spans(net, url, from, to) ==> 1 <= from && to - from <= 100000
  }

  /** So for everything that RunOnce reports: its entries are such audits. */
  lemma RunUnderLag(w: World, net: Network, urls: seq<string>, threshold: real, entries: seq<Audit>, at: seq<nat>)
    requires Reachable(w) && AuditsAt(entries, at, net, urls, threshold, false)
    requires forall u :: u in urls ==> ServedInOrder(w, net, u)
    ensures forall a, s :: a in entries && s in a.missing ==>
      && s !in Received(w, a.producer)
      && net.watermark(a.url, a.producer).Some? && s <= net.watermark(a.url, a.producer).value
      && (InLog(w, a.producer, s) <==> Deleted(w, a.producer, s))
  {
    forall a, s | a in entries && s in a.missing
      ensures s !in Received(w, a.producer) && net.watermark(a.url, a.producer).Some? && s <= net.watermark(a.url, a.producer).value
      ensures InLog(w, a.producer, s) <==> Deleted(w, a.producer, s)
    {
      var k :| 0 <= k < |entries| && entries[k] == a;
      assert urls[at[k]] in urls && IsAuditOf(a, net, urls[at[k]], threshold);
      PassUnderLag(w, net, a.url, threshold, a);
    }
  }

  /** An audit counts something, so there is something due, and it spans a range. */
  lemma SomeSpan(a: Audit, net: Network, url: string, threshold: real) returns (from: int, to: int)
    requires IsAuditOf(a, net, url, threshold)
    ensures Spans(net, url, from, to)
  {
    var due := DueSet(net, url);
    assert |due| > 0;
    from, to := MinOf(due), MaxOf(due);
  }

  lemma DueSet(net: Network, url: string) returns (due: set<int>)
    ensures AreDue(net, url, due)
  {
    if net.recent(url).Recent? && net.recent(url).messages != [] {
      EligibleAreDue(net, url);
      due := Eligible(SentBy(net.recent(url).messages), net.watermark(url, net.recent(url).messages[0].0));
    } else {
      due := {};
    }
  }

  // ---- after a cleanup -------------------------------------------------------------------

  ghost function RowsFor(rows: map<string, Message>, producer: string): set<string> {
    set id | id in rows && rows[id].producer == producer
  }

  ghost function SequencesIn(rows: map<string, Message>, producer: string): set<int> {
    set id | id in rows && rows[id].producer == producer :: rows[id].sequence
  }

  /** There is always a statistics result. */
  lemma LastExists(rows: map<string, Message>) returns (last: map<string, int>)
    ensures C.IsLastSequence(rows, last)
  {
    forall id | id in rows ensures rows[id].sequence in SequencesIn(rows, rows[id].producer) {
    }
    last := map k | k in (set id | id in rows :: rows[id].producer) :: MaxOf(SequencesIn(rows, k));
    forall k | k in last ensures C.HasRow(rows, k, last[k]) {
      assert last[k] in SequencesIn(rows, k);
    }
  }

  /** A producer that has stopped for longer than the retention time: once cleanup_old has deleted its
      rows and the statistics are refreshed, no watermark is served for it, and every number that its
      ring still lists is reported missing, in the log or not. */
  lemma ForgottenProducer(w: World, url: string, producer: string, sent: set<int>, succeeds: bool, threshold: real)
    returns (w': World)
    requires Reachable(w) && sent != {}
    ensures Reachable(w') && w'.logs == w.logs && producer !in w'.cons.cached
    ensures var a := AuditNow(w', url, producer, sent, None, succeeds, threshold);
      a.Some? && forall s :: s in a.value.missing <==> s in sent
  {
    var w1 := Cleaned(w, producer);
    w' := Refreshed(w1, producer);
    assert Received(w', producer) == {};
    ExactUnlessFailed(url, producer, sent, None, Received(w', producer), succeeds, threshold);
  }

  ghost predicate HasNoRows(w: World, producer: string) {
    forall id :: id in w.cons.store.rows ==> w.cons.store.rows[id].producer != producer
  }

  lemma Cleaned(w: World, producer: string) returns (w': World)
    requires Reachable(w)
    ensures Reachable(w') && w'.logs == w.logs && HasNoRows(w', producer)
  {
    var ids := RowsFor(w.cons.store.rows, producer);
    var s := C.Step(w.cons, w.logs, C.Prune(ids)).value;
    w' := w.(cons := s);
    ConsumerSteps(w, C.Prune(ids), s);
    ReachableStep(w, Consume(C.Prune(ids)), w');
  }

  lemma Refreshed(w: World, producer: string) returns (w': World)
    requires Reachable(w) && HasNoRows(w, producer)
    ensures Reachable(w') && w'.logs == w.logs && HasNoRows(w', producer) && producer !in w'.cons.cached
  {
    var last := LastExists(w.cons.store.rows);
    NotServed(w.cons.store.rows, last, producer);
    var s := Serve(w.cons, w.logs, last);
    w' := w.(cons := s);
    ConsumerSteps(w, C.RefreshStats(last), s);
    ReachableStep(w, Consume(C.RefreshStats(last)), w');
  }

  lemma NotServed(rows: map<string, Message>, last: map<string, int>, producer: string)
    requires C.IsLastSequence(rows, last) && forall id :: id in rows ==> rows[id].producer != producer
    ensures producer !in last
  {
    assert producer in last ==> C.HasRow(rows, producer, last[producer]);
  }

  lemma Serve(s: C.Consumer, logs: Logs, last: map<string, int>) returns (s': C.Consumer)
    requires C.IsLastSequence(s.store.rows, last)
    ensures C.Step(s, logs, C.RefreshStats(last)) == Some(s') && s'.store == s.store && s'.cached == last
  {
    s' := C.Step(s, logs, C.RefreshStats(last)).value;
  }

  /** Why a crash drops the watermarks whose rows it rolls back from `served`: an arbiter that still
      holds such a watermark reports that very number as missing, although it is in the log. */
  lemma RolledBackWatermark(w: World, url: string, producer: string, watermark: int, threshold: real)
    requires Reachable(w) && Partition(w, producer) < |w.logs|
    requires (producer, watermark) in w.cons.served && watermark >= 1
    requires !C.HasRow(w.cons.durable.rows, producer, watermark)
    ensures var w' := Step(w, Consume(C.Crash)).value;
      && Reachable(w')
      && var a := AuditNow(w', url, producer, {watermark}, Some(watermark), true, threshold);
         a.Some? && watermark in a.value.missing && InLog(w', producer, watermark)
  {
    var w' := Crashed(w);
    AfterRollback(w, w', producer, watermark);
    ReportedAlone(w', url, producer, watermark, threshold);
  }

  lemma Crashed(w: World) returns (w': World)
    requires Reachable(w)
    ensures Step(w, Consume(C.Crash)) == Some(w') && Reachable(w') && Delivery.Inv(w)
    ensures w'.logs == w.logs && w'.cons.store == w.cons.durable
  {
    ReachableInv(w);
    w' := Step(w, Consume(C.Crash)).value;
    ReachableStep(w, Consume(C.Crash), w');
  }

  lemma AfterRollback(w: World, w': World, producer: string, watermark: int)
    requires Delivery.Inv(w) && Partition(w, producer) < |w.logs| && (producer, watermark) in w.cons.served
    requires !C.HasRow(w.cons.durable.rows, producer, watermark)
    requires w'.logs == w.logs && w'.cons.store == w.cons.durable
    ensures InLog(w', producer, watermark) && watermark !in Received(w', producer)
  {
    ServedIsSeen(w, producer, watermark);
    var p := Partition(w, producer);
    var i: nat :| i < w.cons.store.prefix[p] && Holds(w.logs[p], i, producer, watermark);
    assert At(w'.logs, p, i, w.logs[p][i].msg);
  }

  lemma ReportedAlone(w: World, url: string, producer: string, s: int, threshold: real)
    requires s >= 1 && s !in Received(w, producer)
    ensures var a := AuditNow(w, url, producer, {s}, Some(s), true, threshold); a.Some? && s in a.value.missing
  {
    assert Eligible({s}, Some(s)) == {s};
    ExactUnlessFailed(url, producer, {s}, Some(s), Received(w, producer), true, threshold);
  }
}
