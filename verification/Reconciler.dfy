/** The arbiter's reconciliation pass. */
module Reconciler {
  import opened Messages
  import opened IntSets
  import opened AuditStore
  import opened Rates

  const MAX_SPAN := 100000

  // ---- one producer ---------------------------------------------------------------

  function ComputeStatus(lossRate: real, threshold: real): Status {
    if lossRate == 0.0 then Fine else if lossRate < threshold then Warning else Critical
  }

  /** The consumer's /api/messages/missing: gaps of a range, refused (None) for a range that does
      not start at 1 or later or spans too much. */
  function MissingRoute(received: set<int>, from: int, to: int): Option<seq<int>> {
    if from < 1 || to < 1 || to - from > MAX_SPAN then None else Some(Absent(received, from, to))
  }

  /** _fetch_consumer_sequences: the range without the gaps; nothing when the call failed. */
  function FetchConsumerSequences(gaps: Option<seq<int>>, from: int, to: int): set<int> {
    match gaps
    case None => {}
    case Some(g) => RangeSet(from, to) - (set x | x in g)
  }

  /** The sequences at or below a positive watermark; all of them without one. */
  function Eligible(sent: set<int>, watermark: Option<int>): set<int> {
    if watermark.Some? && watermark.value > 0 then set s | s in sent && s <= watermark.value else sent
  }

  datatype Audit = Audit(producer: string, url: string, sentCount: nat, receivedCount: nat, missingCount: nat,
                         missing: seq<int>, lossRate: real, status: Status, alert: bool)

  /** _reconcile_producer after its fetches; `gaps` answers for a range. */
  function Reconcile(url: string, producer: string, sent: set<int>, watermark: Option<int>,
                     gaps: (int, int) -> Option<seq<int>>, threshold: real): Option<Audit>
  {
    var eligible := Eligible(sent, watermark);
    if eligible == {} then None
    else
      var from, to := MinOf(eligible), MaxOf(eligible);
      var received := FetchConsumerSequences(gaps(from, to), from, to);
      var missing := Sorted(eligible - received);
      var lossRate := |missing| as real / |eligible| as real;
      Some(Audit(producer, url, |eligible|, |eligible * received|, |missing|, missing, lossRate,
                 ComputeStatus(lossRate, threshold), lossRate >= threshold && threshold >= 0.0))
  }

  /** The range the arbiter asks for is one the consumer answers. */
  predicate Answered(eligible: set<int>)
    requires eligible != {}
  {
    MinOf(eligible) >= 1 && MaxOf(eligible) - MinOf(eligible) <= MAX_SPAN
  }

  /** Whatever the consumer answers, the numbers of an audit add up: each eligible sequence is
      counted as received or as missing, never both, the missing ones are listed in order, and the
      loss rate is a fraction. */
  lemma CountsAddUp(url: string, producer: string, sent: set<int>, watermark: Option<int>,
                    gaps: (int, int) -> Option<seq<int>>, threshold: real)
    ensures var a := Reconcile(url, producer, sent, watermark, gaps, threshold);
      && (a.None? <==> Eligible(sent, watermark) == {})
      && (a.Some? ==>
           && a.value.sentCount == |Eligible(sent, watermark)| > 0
           && a.value.receivedCount + a.value.missingCount == a.value.sentCount
           && a.value.missingCount == |a.value.missing| && Ascending(a.value.missing)
           && Scaled(a.value.lossRate, a.value.sentCount) == a.value.missingCount as real
           && 0.0 <= a.value.lossRate <= 1.0)
  {
    var eligible := Eligible(sent, watermark);
    if eligible != {} {
      var from, to := MinOf(eligible), MaxOf(eligible);
      SplitCount(eligible, FetchConsumerSequences(gaps(from, to), from, to));
    }
  }

  lemma SplitCount(eligible: set<int>, received: set<int>)
    requires eligible != {}
    ensures |eligible - received| + |eligible * received| == |eligible| > 0
    ensures var rate := |eligible - received| as real / |eligible| as real;
      0.0 <= rate <= 1.0 && Scaled(rate, |eligible|) == |eligible - received| as real && (rate == 0.0 <==> eligible - received == {})
  {
    assert eligible == (eligible - received) + (eligible * received);
    FractionBounds(|eligible - received|, |eligible|);
  }

  /** The gap query for this range fails (an HTTP error, a network error, a refusal), or answers with
      the gaps of what the consumer has. */
  predicate FailsOrAnswers(gaps: (int, int) -> Option<seq<int>>, received: set<int>, from: int, to: int) {
    gaps(from, to).None? || gaps(from, to) == Some(Absent(received, from, to))
  }

  /** Reconciliation exactness, through the gap list, its complement and the set difference.
      `received` are the sequences the consumer's table holds for the producer.  The missing list is
      exactly the eligible sequences without a row, if and only if the gap query is answered or none
      of them has a row anyway: a query that fails, however, counts everything as missing. */
  lemma ReconciliationIsExact(url: string, producer: string, sent: set<int>, watermark: Option<int>,
                              received: set<int>, gaps: (int, int) -> Option<seq<int>>, threshold: real)
    requires Eligible(sent, watermark) != {}
    requires var e := Eligible(sent, watermark); FailsOrAnswers(gaps, received, MinOf(e), MaxOf(e))
    ensures var e := Eligible(sent, watermark);
      var a := Reconcile(url, producer, sent, watermark, gaps, threshold);
      var answered := gaps(MinOf(e), MaxOf(e)).Some?;
      && a.Some?
      && (answered ==> forall s :: s in a.value.missing <==> s in e && s !in received)
      && (!answered ==> forall s :: s in a.value.missing <==> s in e)
      && ((forall s :: s in a.value.missing <==> s in e && s !in received) <==> answered || e !! received)
  {
    var e := Eligible(sent, watermark);
    var from, to := MinOf(e), MaxOf(e);
    BackFromGaps(gaps(from, to), received, from, to);
    MissingIsTheRest(url, producer, sent, watermark, gaps, threshold);
    OverlapDecides(e, received, Reconcile(url, producer, sent, watermark, gaps, threshold).value.missing);
  }

  /** What the arbiter takes the consumer to have. */
  lemma BackFromGaps(gaps: Option<seq<int>>, received: set<int>, from: int, to: int)
    requires gaps.None? || gaps == Some(Absent(received, from, to))
    ensures forall s :: s in FetchConsumerSequences(gaps, from, to) <==> gaps.Some? && from <= s <= to && s in received
  {
  }

  lemma MissingIsTheRest(url: string, producer: string, sent: set<int>, watermark: Option<int>,
                         gaps: (int, int) -> Option<seq<int>>, threshold: real)
    requires Eligible(sent, watermark) != {}
    ensures var e := Eligible(sent, watermark);
      var back := FetchConsumerSequences(gaps(MinOf(e), MaxOf(e)), MinOf(e), MaxOf(e));
      var a := Reconcile(url, producer, sent, watermark, gaps, threshold);
      a.Some? && forall s :: s in a.value.missing <==> s in e && s !in back
  {
  }

  /** A list of everything is the list of what has no row exactly if nothing has one. */
  lemma OverlapDecides(e: set<int>, received: set<int>, missing: seq<int>)
    requires forall s :: s in missing ==> s in e
    ensures (forall s :: s in e ==> s in missing) ==>
      ((forall s :: s in missing <==> s in e && s !in received) <==> e !! received)
  {
    if e * received != {} {
      var s := SomeElement(e * received);
      assert s in missing ==> s in received;
    } else {
      assert forall s :: s in e ==> s !in e * received;
    }
  }

  /** A consumer whose route has the given sequences, behind a call that succeeds or not. */
  function Answers(received: set<int>, succeeds: bool): (int, int) -> Option<seq<int>> {
    (from, to) => if succeeds then MissingRoute(received, from, to) else None
  }

  /** The ranges that the route answers. */
  lemma AnsweredRanges(e: set<int>, received: set<int>)
    requires e != {}
    ensures Answered(e) <==> forall s, t :: s in e && t in e ==> s >= 1 && t - s <= 100000
    ensures Answered(e) <==> MissingRoute(received, MinOf(e), MaxOf(e)).Some?
  {
  }

  /** With such a consumer, the list is exact if and only if the call succeeds and the range is not
      refused, or none of the eligible sequences has a row. */
  lemma ExactUnlessFailed(url: string, producer: string, sent: set<int>, watermark: Option<int>,
                          received: set<int>, succeeds: bool, threshold: real)
    requires Eligible(sent, watermark) != {}
    ensures var e := Eligible(sent, watermark);
      var a := Reconcile(url, producer, sent, watermark, Answers(received, succeeds), threshold);
      var answered := succeeds && Answered(e);
      && a.Some?
      && (forall s :: s in a.value.missing <==> s in e && (answered ==> s !in received))
      && ((forall s :: s in a.value.missing <==> s in e && s !in received) <==> answered || e !! received)
  {
    ReconciliationIsExact(url, producer, sent, watermark, received, Answers(received, succeeds), threshold);
  }

  /** The alert and the status disagree exactly for a zero loss under a zero threshold. */
  lemma AlertIffCritical(url: string, producer: string, sent: set<int>, watermark: Option<int>,
                         gaps: (int, int) -> Option<seq<int>>, threshold: real)
    requires 0.0 <= threshold && Eligible(sent, watermark) != {}
    ensures var a := Reconcile(url, producer, sent, watermark, gaps, threshold).value;
      (a.alert <==> a.status.Critical?) <==> !(a.missingCount == 0 && threshold == 0.0)
  {
    var eligible := Eligible(sent, watermark);
    var from, to := MinOf(eligible), MaxOf(eligible);
    var received := FetchConsumerSequences(gaps(from, to), from, to);
    SplitCount(eligible, received);
    AlertVersusStatus(|eligible - received| as real / |eligible| as real, threshold);
  }

  lemma AlertVersusStatus(lossRate: real, threshold: real)
    requires 0.0 <= lossRate && 0.0 <= threshold
    ensures (lossRate >= threshold <==> ComputeStatus(lossRate, threshold).Critical?) <==> !(lossRate == 0.0 && threshold == 0.0)
  {
  }

  // ---- a pass over all producers -----------------------------------------------------

  /** What a producer's /api/messages/recent yields: an HTTP failure, or (producer, sequence) pairs in
      list order. */
  datatype Response = Unavailable | Recent(messages: seq<(string, int)>)

  /** An exception in a producer's turn that reaches run_once: none, one before the audit is saved, or
      one of the save itself, with or without the row. */
  datatype Fault = Smooth | BeforeSave | InSave(stored: bool)

  datatype Network = Network(recent: string -> Response, watermark: (string, string) -> Option<int>,
                             missing: (string, string, int, int) -> Option<seq<int>>, fault: string -> Fault)

  datatype Report = Report(producers: seq<Audit>, totalSent: nat, totalReceived: nat, totalMissing: nat, overallLossRate: real)

  /** _fetch_producer_sequences: every sequence is attributed to the first message's producer. */
  function FetchProducerSequences(r: Response): set<(string, int)> {
    if r.Recent? && r.messages != [] then set m | m in r.messages :: (r.messages[0].0, m.1) else {}
  }

  /** What the consumer answers during this producer's turn. */
  function GapsFor(net: Network, url: string, producer: string): (int, int) -> Option<seq<int>> {
    (from, to) => net.missing(url, producer, from, to)
  }

  function SentBy(messages: seq<(string, int)>): set<int> {
    set m | m in messages :: m.1
  }

  /** The audit of one producer URL, if there is one and nothing raises. */
  function Audited(net: Network, url: string, threshold: real): Option<Audit> {
    match net.recent(url)
    case Unavailable => None
    case Recent(messages) =>
      if messages == [] then None
      else
        var producer := messages[0].0;
        Reconcile(url, producer, SentBy(messages), net.watermark(url, producer), GapsFor(net, url, producer), threshold)
  }

  /** What a pass reports of one producer URL. */
  function ForUrl(net: Network, url: string, threshold: real): Option<Audit> {
    if net.fault(url).Smooth? then Audited(net, url, threshold) else None
  }

  /** What a pass saves of one producer URL. */
  function SavedFor(net: Network, url: string, threshold: real): Option<Audit> {
    if net.fault(url) in {Smooth, InSave(true)} then Audited(net, url, threshold) else None
  }

  function Listed(a: Option<Audit>): seq<Audit> {
    if a.Some? then [a.value] else []
  }

  /** The producers that a pass reports, in order. */
  function Audits(net: Network, urls: seq<string>, threshold: real): seq<Audit> {
    if urls == [] then []
    else Audits(net, urls[..|urls| - 1], threshold) + Listed(ForUrl(net, urls[|urls| - 1], threshold))
  }

  /** The audits that a pass saves, in order. */
  function SavedAudits(net: Network, urls: seq<string>, threshold: real): seq<Audit> {
    if urls == [] then []
    else SavedAudits(net, urls[..|urls| - 1], threshold) + Listed(SavedFor(net, urls[|urls| - 1], threshold))
  }

  /** Every reported audit is saved; if no save raises after its INSERT, nothing else is. */
  lemma {:induction false} ReportedIsSaved(net: Network, urls: seq<string>, threshold: real)
    ensures forall a :: a in Audits(net, urls, threshold) ==> a in SavedAudits(net, urls, threshold)
    ensures (forall u :: u in urls ==> net.fault(u) != InSave(true)) ==> SavedAudits(net, urls, threshold) == Audits(net, urls, threshold)
  {
    if urls != [] {
      var init := urls[..|urls| - 1];
      ReportedIsSaved(net, init, threshold);
      assert urls[|urls| - 1] in urls;
      assert forall u :: u in init ==> u in urls;
    }
  }

  // ---- what an audit must be, told from the network alone ------------------------------

  /** The number s is to be audited: the producer lists it, and it does not lie beyond a positive
      watermark that the consumer serves for the first listed message's producer. */
  ghost predicate Due(net: Network, url: string, s: int) {
    && net.recent(url).Recent? && net.recent(url).messages != []
    && (exists m :: m in net.recent(url).messages && m.1 == s)
    && var w := net.watermark(url, net.recent(url).messages[0].0); (w.Some? && w.value > 0 ==> s <= w.value)
  }

  /** The numbers to be audited, as a set, and the range that they span. */
  ghost predicate AreDue(net: Network, url: string, due: set<int>) {
    forall s :: s in due <==> Due(net, url, s)
  }

  ghost predicate Spans(net: Network, url: string, from: int, to: int) {
    Due(net, url, from) && Due(net, url, to) && forall s :: Due(net, url, s) ==> from <= s <= to
  }

  /** Its size is the number of what is due. */
  ghost predicate CountsDue(a: Audit, net: Network, url: string) {
    forall due :: AreDue(net, url, due) ==> a.sentCount == |due|
  }

  /** It lists what is due and a gap of the consumer's, or all that is due if the consumer does not answer. */
  ghost predicate ListsGaps(a: Audit, net: Network, url: string) {
    && Ascending(a.missing)
    && forall from, to :: Spans(net, url, from, to) ==>
         var gaps := net.missing(url, a.producer, from, to);
         forall s :: s in a.missing <==> Due(net, url, s) && (gaps.Some? ==> s in gaps.value)
  }

  /** The numbers add up, and status and alert compare their fraction with the threshold. */
  ghost predicate Rated(a: Audit, threshold: real) {
    && a.missingCount == |a.missing| && a.receivedCount + a.missingCount == a.sentCount && a.sentCount > 0
    && a.lossRate == a.missingCount as real / a.sentCount as real
    && (a.status.Fine? <==> a.lossRate == 0.0)
    && (a.status.Critical? <==> a.lossRate != 0.0 && a.lossRate >= threshold)
    && (a.alert <==> a.lossRate >= threshold >= 0.0)
  }

  /** What the arbiter may report or save of a URL, under the first listed message's producer. */
  ghost predicate IsAuditOf(a: Audit, net: Network, url: string, threshold: real) {
    && a.url == url && net.recent(url).Recent? && net.recent(url).messages != []
    && a.producer == net.recent(url).messages[0].0
    && CountsDue(a, net, url) && ListsGaps(a, net, url) && Rated(a, threshold)
  }

  /** There is an audit if and only if some number is due, and it is such a one. */
  lemma AuditedIsAudit(net: Network, url: string, threshold: real)
    ensures Audited(net, url, threshold).Some? <==> exists s :: Due(net, url, s)
    ensures Audited(net, url, threshold).Some? ==> IsAuditOf(Audited(net, url, threshold).value, net, url, threshold)
  {
    if net.recent(url).Recent? && net.recent(url).messages != [] {
      var messages := net.recent(url).messages;
      var producer := messages[0].0;
      var e := Eligible(SentBy(messages), net.watermark(url, producer));
      EligibleAreDue(net, url);
      CountsAddUp(url, producer, SentBy(messages), net.watermark(url, producer), GapsFor(net, url, producer), threshold);
      if e != {} {
        AuditSpelledOut(net, url, threshold);
      }
    }
  }

  lemma EligibleAreDue(net: Network, url: string)
    requires net.recent(url).Recent? && net.recent(url).messages != []
    ensures var messages := net.recent(url).messages;
      var e := Eligible(SentBy(messages), net.watermark(url, messages[0].0));
      AreDue(net, url, e) && (e != {} <==> exists s :: Due(net, url, s))
  {
    var messages := net.recent(url).messages;
    var e := Eligible(SentBy(messages), net.watermark(url, messages[0].0));
    forall s ensures s in e <==> Due(net, url, s) {
    }
    if e != {} {
      var s := SomeElement(e);
    }
  }

  lemma AuditSpelledOut(net: Network, url: string, threshold: real)
    requires net.recent(url).Recent? && net.recent(url).messages != []
    requires var messages := net.recent(url).messages; Eligible(SentBy(messages), net.watermark(url, messages[0].0)) != {}
    ensures Audited(net, url, threshold).Some? && IsAuditOf(Audited(net, url, threshold).value, net, url, threshold)
  {
    var messages := net.recent(url).messages;
    var producer := messages[0].0;
    var sent, w, gaps := SentBy(messages), net.watermark(url, producer), GapsFor(net, url, producer);
    var a := Reconcile(url, producer, sent, w, gaps, threshold).value;
    EligibleAreDue(net, url);
    ReconcileIsRated(url, producer, sent, w, gaps, threshold);
    MissingIsTheRest(url, producer, sent, w, gaps, threshold);
    SameSize(a, net, url, Eligible(sent, w));
    SameGaps(a, net, url, Eligible(sent, w));
  }

  lemma ReconcileIsRated(url: string, producer: string, sent: set<int>, watermark: Option<int>,
                         gaps: (int, int) -> Option<seq<int>>, threshold: real)
    requires Eligible(sent, watermark) != {}
    ensures var a := Reconcile(url, producer, sent, watermark, gaps, threshold).value;
      Rated(a, threshold) && Ascending(a.missing) && a.producer == producer && a.url == url && a.sentCount == |Eligible(sent, watermark)|
  {
    var e := Eligible(sent, watermark);
    SplitCount(e, FetchConsumerSequences(gaps(MinOf(e), MaxOf(e)), MinOf(e), MaxOf(e)));
  }

  lemma SameSize(a: Audit, net: Network, url: string, e: set<int>)
    requires AreDue(net, url, e) && a.sentCount == |e|
    ensures CountsDue(a, net, url)
  {
    forall due | AreDue(net, url, due) ensures due == e {
      assert forall s :: s in due <==> s in e;
    }
  }

  lemma SameGaps(a: Audit, net: Network, url: string, e: set<int>)
    requires AreDue(net, url, e) && e != {} && Ascending(a.missing)
    requires var gaps := net.missing(url, a.producer, MinOf(e), MaxOf(e));
      forall s :: s in a.missing <==> s in e && s !in FetchConsumerSequences(gaps, MinOf(e), MaxOf(e))
    ensures ListsGaps(a, net, url)
  {
    forall from, to | Spans(net, url, from, to) ensures from == MinOf(e) && to == MaxOf(e) {
    }
  }

  /** If the gap query tells the gaps of what the consumer has, the list is exactly what is due and has
      no row. */
  lemma MissingHasNoRow(a: Audit, net: Network, url: string, threshold: real, received: set<int>)
    requires IsAuditOf(a, net, url, threshold)
    requires forall from, to :: Spans(net, url, from, to) ==> net.missing(url, a.producer, from, to) == Some(Absent(received, from, to))
    requires exists from, to :: Spans(net, url, from, to)
    ensures forall s :: s in a.missing <==> Due(net, url, s) && s !in received
  {
    var from, to :| Spans(net, url, from, to);
    var gaps := net.missing(url, a.producer, from, to);
    assert gaps == Some(Absent(received, from, to));
  }

  // ---- totals ----------------------------------------------------------------------------

  function TotalSent(a: seq<Audit>): nat { if a == [] then 0 else TotalSent(a[..|a| - 1]) + a[|a| - 1].sentCount }
  function TotalReceived(a: seq<Audit>): nat { if a == [] then 0 else TotalReceived(a[..|a| - 1]) + a[|a| - 1].receivedCount }
  function TotalMissing(a: seq<Audit>): nat { if a == [] then 0 else TotalMissing(a[..|a| - 1]) + a[|a| - 1].missingCount }

  /** An audit whose numbers add up, as CountsAddUp shows of every one. */
  ghost predicate AddsUp(a: Audit) {
    a.sentCount > 0 && a.receivedCount + a.missingCount == a.sentCount && Scaled(a.lossRate, a.sentCount) == a.missingCount as real
  }

  lemma {:induction false} AuditsAddUp(net: Network, urls: seq<string>, threshold: real)
    ensures forall a :: a in Audits(net, urls, threshold) ==> AddsUp(a)
  {
    if urls != [] {
      AuditsAddUp(net, urls[..|urls| - 1], threshold);
      var url := urls[|urls| - 1];
      if net.recent(url).Recent? && net.recent(url).messages != [] {
        var producer := net.recent(url).messages[0].0;
        CountsAddUp(url, producer, SentBy(net.recent(url).messages), net.watermark(url, producer),
                    GapsFor(net, url, producer), threshold);
      }
    }
  }

  lemma {:induction false} TotalsBetween(audits: seq<Audit>, lo: real, hi: real)
    requires forall a :: a in audits ==> AddsUp(a) && lo <= a.lossRate <= hi
    ensures TotalReceived(audits) + TotalMissing(audits) == TotalSent(audits)
    ensures Scaled(lo, TotalSent(audits)) <= TotalMissing(audits) as real <= Scaled(hi, TotalSent(audits))
    ensures audits != [] ==> TotalSent(audits) > 0
  {
    if audits != [] {
      var init, a := audits[..|audits| - 1], audits[|audits| - 1];
      assert a in audits;
      TotalsBetween(init, lo, hi);
      ScaledMonotone(lo, a.lossRate, a.sentCount);
      ScaledMonotone(a.lossRate, hi, a.sentCount);
      ScaledSum(lo, TotalSent(init), a.sentCount);
      ScaledSum(hi, TotalSent(init), a.sentCount);
    }
  }

  /** The overall loss rate lies between any bounds of the per-producer rates, in particular
      between the least and the greatest of them, and the totals add up. */
  lemma OverallRateIsBetween(audits: seq<Audit>, lo: real, hi: real)
    requires audits != [] && forall a :: a in audits ==> AddsUp(a) && lo <= a.lossRate <= hi
    ensures TotalSent(audits) == TotalReceived(audits) + TotalMissing(audits) && TotalSent(audits) > 0
    ensures lo <= TotalMissing(audits) as real / TotalSent(audits) as real <= hi
  {
    TotalsBetween(audits, lo, hi);
    RateAtLeast(TotalMissing(audits) as real, TotalSent(audits), lo);
    RateAtMost(TotalMissing(audits) as real, TotalSent(audits), hi);
  }

  lemma FirstPair(r: Response)
    ensures r.Recent? && r.messages != [] ==> (r.messages[0].0, r.messages[0].1) in FetchProducerSequences(r)
  {
    assert r.Recent? && r.messages != [] ==> r.messages[0] in r.messages;
  }

  /** All pairs carry the first message's producer, so there is one group and it is complete. */
  lemma OneProducer(r: Response, byProducer: map<string, set<int>>)
    requires var pairs := FetchProducerSequences(r);
      && pairs != {}
      && byProducer.Keys == (set p | p in pairs :: p.0)
      && forall k :: k in byProducer ==> byProducer[k] == set p | p in pairs && p.0 == k :: p.1
    ensures byProducer.Keys == {r.messages[0].0}
    ensures byProducer[r.messages[0].0] == SentBy(r.messages)
  {
    var pairs := FetchProducerSequences(r);
    var first := r.messages[0].0;
    assert forall p :: p in pairs ==> p.0 == first;
    assert r.messages[0] in r.messages;
    assert (first, r.messages[0].1) in pairs;
    forall m | m in r.messages ensures m.1 in byProducer[first] {
      assert (first, m.1) in pairs;
    }
  }

  lemma TurnIsAudit(net: Network, url: string, threshold: real)
    ensures var saved := SavedFor(net, url, threshold);
      && (saved.Some? <==> (exists s :: Due(net, url, s)) && (net.fault(url) == Smooth || net.fault(url) == InSave(true)))
      && (saved.Some? ==> IsAuditOf(saved.value, net, url, threshold))
      && ForUrl(net, url, threshold) == (if net.fault(url) == Smooth then saved else None)
  {
    AuditedIsAudit(net, url, threshold);
  }

  // ---- a pass, URL by URL ----------------------------------------------------------------

  /** Something of the URL is due, and nothing raises in its turn, or only the save after its INSERT if
      `saved`. */
  ghost predicate Enters(net: Network, url: string, saved: bool) {
    (exists s :: Due(net, url, s)) && (net.fault(url) == Smooth || (saved && net.fault(url) == InSave(true)))
  }

  /** The entries are the audits of the URLs at the given positions, which increase and are exactly
      those of the URLs that enter. */
  ghost predicate AuditsAt(entries: seq<Audit>, at: seq<nat>, net: Network, urls: seq<string>, threshold: real, saved: bool) {
    && |entries| == |at|
    && (forall j, k :: 0 <= j < k < |at| ==> at[j] < at[k])
    && (forall k :: 0 <= k < |at| ==> at[k] < |urls| && IsAuditOf(entries[k], net, urls[at[k]], threshold))
    && (forall i :: 0 <= i < |urls| ==> (i in at <==> Enters(net, urls[i], saved)))
  }

  lemma {:induction false} ReportedAt(net: Network, urls: seq<string>, threshold: real) returns (at: seq<nat>)
    ensures AuditsAt(Audits(net, urls, threshold), at, net, urls, threshold, false)
  {
    if urls == [] {
      at := [];
    } else {
      var i := |urls| - 1;
      var before := ReportedAt(net, urls[..i], threshold);
      AuditedIsAudit(net, urls[i], threshold);
      at := OneMoreAt(Audits(net, urls[..i], threshold), before, ForUrl(net, urls[i], threshold), net, urls, threshold, false);
    }
  }

  lemma {:induction false} SavedAt(net: Network, urls: seq<string>, threshold: real) returns (at: seq<nat>)
    ensures AuditsAt(SavedAudits(net, urls, threshold), at, net, urls, threshold, true)
  {
    if urls == [] {
      at := [];
    } else {
      var i := |urls| - 1;
      var before := SavedAt(net, urls[..i], threshold);
      AuditedIsAudit(net, urls[i], threshold);
      at := OneMoreAt(SavedAudits(net, urls[..i], threshold), before, SavedFor(net, urls[i], threshold), net, urls, threshold, true);
    }
  }

  lemma OneMoreAt(entries: seq<Audit>, before: seq<nat>, more: Option<Audit>, net: Network, urls: seq<string>, threshold: real, saved: bool)
    returns (at: seq<nat>)
    requires urls != [] && AuditsAt(entries, before, net, urls[..|urls| - 1], threshold, saved)
    requires more.Some? ==> IsAuditOf(more.value, net, urls[|urls| - 1], threshold)
    requires more.Some? <==> Enters(net, urls[|urls| - 1], saved)
    ensures AuditsAt(entries + Listed(more), at, net, urls, threshold, saved)
  {
    var i := |urls| - 1;
    at := before;
    if more.Some? {
      at := before + [i];
    } else {
      assert entries + [] == entries;
    }
    forall j | 0 <= j < |urls| ensures j in at <==> Enters(net, urls[j], saved) {
      if j < i {
        assert urls[..i][j] == urls[j];
      }
    }
  }

  /** The rows are those of the given audits, under consecutive ids. */
  ghost predicate AreRowsOf(rows: seq<AuditResult>, audits: seq<Audit>, ids: nat -> string, n: nat, timestamp: string) {
    && |rows| == |audits|
    && forall k :: 0 <= k < |rows| ==> var a := audits[k];
         rows[k] == AuditResult(ids(n + k), timestamp, a.producer, a.sentCount, a.receivedCount, a.missing, a.lossRate, a.status)
  }

  lemma {:induction false} RowsAreRowsOf(audits: seq<Audit>, ids: nat -> string, n: nat, timestamp: string)
    ensures AreRowsOf(RowsOf(audits, ids, n, timestamp), audits, ids, n, timestamp)
  {
    if audits != [] {
      RowsAreRowsOf(audits[..|audits| - 1], ids, n, timestamp);
    }
  }

  // ---- the totals are sizes ------------------------------------------------------------

  lemma {:induction false} SentIsCount(a: seq<Audit>)
    ensures TotalSent(a) == |set k, i | 0 <= k < |a| && 0 <= i < a[k].sentCount :: (k, i)|
  {
    var all := set k, i | 0 <= k < |a| && 0 <= i < a[k].sentCount :: (k, i);
    if a == [] {
      assert all == {};
    } else {
      var n := |a| - 1;
      var b := a[..n];
      var some := set k, i | 0 <= k < |b| && 0 <= i < b[k].sentCount :: (k, i);
      SentIsCount(b);
      assert all == some + Column(n, 0, a[n].sentCount);
      OneMoreColumn(some, all, n, 0, a[n].sentCount);
    }
  }

  lemma {:induction false} MissingIsCount(a: seq<Audit>)
    ensures TotalMissing(a) == |set k, i | 0 <= k < |a| && 0 <= i < a[k].missingCount :: (k, i)|
  {
    var all := set k, i | 0 <= k < |a| && 0 <= i < a[k].missingCount :: (k, i);
    if a == [] {
      assert all == {};
    } else {
      var n := |a| - 1;
      var b := a[..n];
      var some := set k, i | 0 <= k < |b| && 0 <= i < b[k].missingCount :: (k, i);
      MissingIsCount(b);
      assert all == some + Column(n, 0, a[n].missingCount);
      OneMoreColumn(some, all, n, 0, a[n].missingCount);
    }
  }

  function ToRow(a: Audit, id: string, timestamp: string): AuditResult {
    AuditResult(id, timestamp, a.producer, a.sentCount, a.receivedCount, a.missing, a.lossRate, a.status)
  }

  /** No two calls of uuid4 give the same id. */
  ghost predicate Distinct(ids: nat -> string) {
    forall i, j :: 0 <= i < j ==> ids(i) != ids(j)
  }

  /** The rows have ids from the first n. */
  ghost predicate AllIssued(rows: seq<AuditResult>, ids: nat -> string, n: nat) {
    forall r :: r in rows ==> exists i :: 0 <= i < n && r.auditId == ids(i)
  }

  /** The rows of the given audits, under the ids from the n-th one on. */
  function RowsOf(audits: seq<Audit>, ids: nat -> string, n: nat, timestamp: string): seq<AuditResult> {
    if audits == [] then []
    else
      var k := |audits| - 1;
      RowsOf(audits[..k], ids, n, timestamp) + [ToRow(audits[k], ids(n + k), timestamp)]
  }

  lemma OneMoreRow(before: seq<AuditResult>, audits: seq<Audit>, a: Audit, ids: nat -> string, n: nat, k: nat, timestamp: string)
    requires k == n + |audits|
    ensures before + RowsOf(audits, ids, n, timestamp) + [ToRow(a, ids(k), timestamp)] == before + RowsOf(audits + [a], ids, n, timestamp)
  {
    assert (audits + [a])[..|audits|] == audits;
  }

  class Service {
    const store: AuditStore.Store
    const urls: seq<string>
    const net: Network
    const threshold: real
    const ids: nat -> string         // uuid4, the n-th one
    var issued: nat
    var lastReport: Option<Report>
    var lastLossRate: Option<real>

    ghost predicate Valid()
      reads this, store
    {
      && store.Valid()
      && Distinct(ids)
      && AllIssued(store.rows, ids, issued)
    }

    constructor (store: AuditStore.Store, urls: seq<string>, net: Network, threshold: real, ids: nat -> string)
      requires store.Valid() && store.rows == []
      requires Distinct(ids)
      ensures Valid() && this.store == store && this.urls == urls && this.net == net && this.threshold == threshold
    {
      this.store, this.urls, this.net, this.threshold, this.ids := store, urls, net, threshold, ids;
      issued, lastReport, lastLossRate := 0, None, None;
    }

    /** Groups the pairs by producer; there is one producer, that of the first message. */
    method GroupByProducer(pairs: set<(string, int)>) returns (byProducer: map<string, set<int>>)
      ensures byProducer.Keys == set p | p in pairs :: p.0
      ensures forall k :: k in byProducer ==> byProducer[k] == set p | p in pairs && p.0 == k :: p.1
    {
      byProducer := map[];
      var left := pairs;
      while left != {}
        invariant left <= pairs
        invariant byProducer.Keys == set p | p in pairs - left :: p.0
        invariant forall k :: k in byProducer ==> byProducer[k] == set p | p in pairs - left && p.0 == k :: p.1
        decreases left
      {
        var t :| t in left;
        left := left - {t};
        var seqs := if t.0 in byProducer then byProducer[t.0] else {};
        byProducer := byProducer[t.0 := seqs + {t.1}];
        assert pairs - left == pairs - (left + {t}) + {t};
      }
      assert pairs - {} == pairs;
    }

    /** The fetches, the grouping and the comparison of _reconcile_producer. */
    method Compare(url: string) returns (result: Option<Audit>)
      ensures result == Audited(net, url, threshold)
    {
      var pairs := FetchProducerSequences(net.recent(url));
      if pairs == {} {
        FirstPair(net.recent(url));
        return None;
      }
      var byProducer := GroupByProducer(pairs);
      OneProducer(net.recent(url), byProducer);
      var producer :| producer in byProducer;
      var sent := byProducer[producer];
      result := Reconcile(url, producer, sent, net.watermark(url, producer), GapsFor(net, url, producer), threshold);
    }

    /** Saves an audit under a fresh id, at the end of the table. */
    method SaveAudit(a: Audit, timestamp: string)
      requires Valid()
      modifies this`issued, store
      ensures Valid() && issued == old(issued) + 1
      ensures store.rows == old(store.rows) + [ToRow(a, ids(old(issued)), timestamp)]
    {
      store.SaveResult(ToRow(a, ids(issued), timestamp));
      issued := issued + 1;
    }

    /** One producer's turn: its audit is saved if there is one, unless an exception comes first, and
        reported unless an exception comes at all. */
    method ReconcileProducer(url: string, timestamp: string) returns (result: Option<Audit>, raised: bool, ghost saved: Option<Audit>)
      requires Valid()
      modifies this`issued, store
      ensures Valid() && result == ForUrl(net, url, threshold)
      ensures raised ==> result.None? && !net.fault(url).Smooth?
      ensures saved == SavedFor(net, url, threshold)
      ensures saved.Some? <==> (exists s :: Due(net, url, s)) && (net.fault(url) == Smooth || net.fault(url) == InSave(true))
      ensures result == if net.fault(url) == Smooth then saved else None
      ensures saved.Some? ==> IsAuditOf(saved.value, net, url, threshold)
      ensures saved.None? ==> store.rows == old(store.rows) && issued == old(issued)
      ensures saved.Some? ==> issued == old(issued) + 1
      ensures saved.Some? ==> var a := saved.value;
        store.rows == old(store.rows) + [AuditResult(ids(old(issued)), timestamp, a.producer, a.sentCount, a.receivedCount, a.missing, a.lossRate, a.status)]
    {
      TurnIsAudit(net, url, threshold);
      var audit := Compare(url);
      var fault := net.fault(url);
      if audit.None? || fault == BeforeSave || fault == InSave(false) {
        return None, fault != Smooth, None;
      }
      SaveAudit(audit.value, timestamp);
      return if fault == Smooth then audit else None, fault != Smooth, audit;
    }

    /** One turn of run_once's loop; `saved` are the audits saved before it, on top of `before`. */
    method Turn(url: string, timestamp: string, ghost before: seq<AuditResult>, ghost saved: seq<Audit>, ghost n: nat) returns (result: Option<Audit>)
      requires Valid() && SavedOnTop(before, saved, n, timestamp)
      modifies this`issued, store
      ensures Valid() && result == ForUrl(net, url, threshold)
      ensures SavedOnTop(before, saved + Listed(SavedFor(net, url, threshold)), n, timestamp)
    {
      ghost var more;
      var raised;
      result, raised, more := ReconcileProducer(url, timestamp);
      Lengthens(more, before, saved, n, old(issued), timestamp);
    }

    lemma Lengthens(more: Option<Audit>, before: seq<AuditResult>, saved: seq<Audit>, n: nat, k: nat, timestamp: string)
      requires k == n + |saved| && issued == k + |Listed(more)|
      requires var rows := before + RowsOf(saved, ids, n, timestamp);
        if more.None? then store.rows == rows else store.rows == rows + [ToRow(more.value, ids(k), timestamp)]
      ensures SavedOnTop(before, saved + Listed(more), n, timestamp)
    {
      if more.Some? {
        OneMoreRow(before, saved, more.value, ids, n, k, timestamp);
      } else {
        assert saved + [] == saved;
      }
    }

    ghost predicate SavedOnTop(before: seq<AuditResult>, saved: seq<Audit>, n: nat, timestamp: string)
      reads this, store
    {
      store.rows == before + RowsOf(saved, ids, n, timestamp) && issued == n + |saved|
    }

    /** A result, if there is one, joins the list and the totals. */
    static method Tally(audits: seq<Audit>, sent: nat, received: nat, missing: nat, result: Option<Audit>)
      returns (audits': seq<Audit>, sent': nat, received': nat, missing': nat)
      requires TotalsAre(audits, sent, received, missing)
      ensures audits' == audits + Listed(result) && TotalsAre(audits', sent', received', missing')
    {
      audits', sent', received', missing' := audits, sent, received, missing;
      if result.Some? {
        OneMoreAudit(audits, result.value);
        audits' := audits + [result.value];
        sent', received', missing' := sent + result.value.sentCount, received + result.value.receivedCount, missing + result.value.missingCount;
      } else {
        assert audits + [] == audits;
      }
    }

    /** The loop of run_once over the producers. */
    method Collect(timestamp: string) returns (results: seq<Audit>, totalSent: nat, totalReceived: nat, totalMissing: nat)
      requires Valid()
      modifies this`issued, store
      ensures Valid() && results == Audits(net, urls, threshold)
      ensures TotalsAre(results, totalSent, totalReceived, totalMissing)
      ensures SavedOnTop(old(store.rows), SavedAudits(net, urls, threshold), old(issued), timestamp)
    {
      results, totalSent, totalReceived, totalMissing := [], 0, 0, 0;
      assert store.rows == store.rows + RowsOf([], ids, issued, timestamp);
      for i := 0 to |urls|
        invariant Valid()
        invariant results == Audits(net, urls[..i], threshold)
        invariant SavedOnTop(old(store.rows), SavedAudits(net, urls[..i], threshold), old(issued), timestamp)
        invariant TotalsAre(results, totalSent, totalReceived, totalMissing)
      {
        OneMoreUrl(net, urls, i, threshold);
        var result := Turn(urls[i], timestamp, old(store.rows), SavedAudits(net, urls[..i], threshold), old(issued));
        results, totalSent, totalReceived, totalMissing := Tally(results, totalSent, totalReceived, totalMissing, result);
      }
      assert urls[..|urls|] == urls;
    }

    /** run_once: the loop, the overall rate, and the report put where the API finds it. */
    method Publish(timestamp: string) returns (report: Report)
      requires Valid()
      modifies this, store
      ensures Valid() && report.producers == Audits(net, urls, threshold)
      ensures TotalsAre(report.producers, report.totalSent, report.totalReceived, report.totalMissing)
      ensures report.overallLossRate == if report.totalSent > 0 then report.totalMissing as real / report.totalSent as real else 0.0
      ensures lastReport == Some(report) && lastLossRate == Some(report.overallLossRate)
      ensures SavedOnTop(old(store.rows), SavedAudits(net, urls, threshold), old(issued), timestamp)
    {
      var results, totalSent, totalReceived, totalMissing := Collect(timestamp);
      var overall := if totalSent > 0 then totalMissing as real / totalSent as real else 0.0;
      report := Report(results, totalSent, totalReceived, totalMissing, overall);
      lastReport, lastLossRate := Some(report), Some(overall);
    }

    /** The report has, in order, one audit for each URL in whose turn nothing raised and which has
        something due; the rows added are, in order, one for each audit that was saved.  The totals
        count what the audits count, and the overall rate lies between theirs. */
    method RunOnce(timestamp: string) returns (report: Report, ghost at: seq<nat>, ghost saved: seq<Audit>, ghost savedAt: seq<nat>)
      requires Valid()
      modifies this, store
      ensures Valid()
      ensures AuditsAt(report.producers, at, net, urls, threshold, false)
      ensures AuditsAt(saved, savedAt, net, urls, threshold, true)
      ensures old(store.rows) <= store.rows && AreRowsOf(store.rows[|old(store.rows)|..], saved, ids, old(issued), timestamp)
      ensures var a := report.producers;
        && report.totalSent == (|set k, i | 0 <= k < |a| && 0 <= i < a[k].sentCount :: (k, i)|)
        && report.totalMissing == (|set k, i | 0 <= k < |a| && 0 <= i < a[k].missingCount :: (k, i)|)
      ensures report.totalSent == report.totalReceived + report.totalMissing
      ensures report.overallLossRate == if report.totalSent > 0 then report.totalMissing as real / report.totalSent as real else 0.0
      ensures report.producers != [] ==> forall lo, hi :: RatesWithin(lo, report.producers, hi) ==> lo <= report.overallLossRate <= hi
      ensures lastReport == Some(report) && lastLossRate == Some(report.overallLossRate)
      ensures report.producers == Audits(net, urls, threshold) && saved == SavedAudits(net, urls, threshold)
    {
      report := Publish(timestamp);
      at := ReportedAt(net, urls, threshold);
      saved := SavedAudits(net, urls, threshold);
      savedAt := SavedAt(net, urls, threshold);
      RowsOnTop(old(store.rows), store.rows, saved, ids, old(issued), timestamp);
      ReportAddsUp(net, urls, threshold);
    }
  }

  lemma RowsOnTop(before: seq<AuditResult>, rows: seq<AuditResult>, saved: seq<Audit>, ids: nat -> string, n: nat, timestamp: string)
    requires rows == before + RowsOf(saved, ids, n, timestamp)
    ensures before <= rows && AreRowsOf(rows[|before|..], saved, ids, n, timestamp)
  {
    RowsAreRowsOf(saved, ids, n, timestamp);
    assert rows[|before|..] == RowsOf(saved, ids, n, timestamp);
  }

  ghost predicate TotalsAre(audits: seq<Audit>, sent: nat, received: nat, missing: nat) {
    sent == TotalSent(audits) && received == TotalReceived(audits) && missing == TotalMissing(audits)
  }

  /** The totals of a pass. */
  lemma ReportAddsUp(net: Network, urls: seq<string>, threshold: real)
    ensures var a := Audits(net, urls, threshold);
      && TotalSent(a) == (|set k, i | 0 <= k < |a| && 0 <= i < a[k].sentCount :: (k, i)|)
      && TotalMissing(a) == (|set k, i | 0 <= k < |a| && 0 <= i < a[k].missingCount :: (k, i)|)
      && TotalSent(a) == TotalReceived(a) + TotalMissing(a)
      && (a != [] ==> TotalSent(a) > 0)
      && (a != [] ==> forall lo, hi :: RatesWithin(lo, a, hi) ==> lo <= TotalMissing(a) as real / TotalSent(a) as real <= hi)
  {
    var a := Audits(net, urls, threshold);
    AuditsAddUp(net, urls, threshold);
    AllSumsAgree(a);
    AnyBoundsHold(a);
    SentIsCount(a);
    MissingIsCount(a);
  }

  lemma OneMoreUrl(net: Network, urls: seq<string>, i: nat, threshold: real)
    requires i < |urls|
    ensures Audits(net, urls[..i + 1], threshold) == Audits(net, urls[..i], threshold) + Listed(ForUrl(net, urls[i], threshold))
    ensures SavedAudits(net, urls[..i + 1], threshold) == SavedAudits(net, urls[..i], threshold) + Listed(SavedFor(net, urls[i], threshold))
  {
    assert urls[..i + 1][..i] == urls[..i];
  }

  lemma OneMoreAudit(audits: seq<Audit>, a: Audit)
    ensures TotalSent(audits + [a]) == TotalSent(audits) + a.sentCount
    ensures TotalReceived(audits + [a]) == TotalReceived(audits) + a.receivedCount
    ensures TotalMissing(audits + [a]) == TotalMissing(audits) + a.missingCount
  {
    assert (audits + [a])[..|audits|] == audits;
  }

  ghost predicate RatesWithin(lo: real, audits: seq<Audit>, hi: real) {
    forall a :: a in audits ==> lo <= a.lossRate <= hi
  }

  lemma AnyBoundsHold(audits: seq<Audit>)
    requires forall a :: a in audits ==> AddsUp(a)
    ensures audits != [] ==> TotalSent(audits) > 0
    ensures audits != [] ==> forall lo, hi :: RatesWithin(lo, audits, hi) ==>
      lo <= TotalMissing(audits) as real / TotalSent(audits) as real <= hi
  {
    if audits != [] {
      SomethingSent(audits);
      forall lo, hi | RatesWithin(lo, audits, hi) ensures lo <= TotalMissing(audits) as real / TotalSent(audits) as real <= hi {
        OverallRateIsBetween(audits, lo, hi);
      }
    }
  }

  lemma SomethingSent(audits: seq<Audit>)
    requires audits != [] && forall a :: a in audits ==> AddsUp(a)
    ensures TotalSent(audits) > 0
  {
    assert audits[|audits| - 1] in audits;
  }

  lemma {:induction false} AllSumsAgree(audits: seq<Audit>)
    requires forall a :: a in audits ==> AddsUp(a)
    ensures TotalSent(audits) == TotalReceived(audits) + TotalMissing(audits)
  {
    if audits != [] {
      assert audits[|audits| - 1] in audits;
      AllSumsAgree(audits[..|audits| - 1]);
    }
  }
}
