/** The scoring worker behind its own queue. A scoring call may return anything, or nothing. */
module MlScoringWorkers {
  import opened Options
  import opened Alerts
  import opened SpscRing
  import opened RingDrain

  /** The features that are sent along play no part here and are not represented. */
  datatype ScoringRequest = ScoringRequest(accountId: string, instrumentId: string, timestampNs: int, bookSnapshotSequence: nat)

  datatype ScoringResult = ScoringResult(anomalyScore: real, modelVersion: string)

  /** A popped request and what the scoring service answered. */
  datatype Answered = Answered(request: ScoringRequest, result: Option<ScoringResult>)

  datatype Tally = Tally(scored: nat, failed: nat, alerted: nat, alerts: seq<Alert>)

  const NOTHING := Tally(0, 0, 0, [])

  function AlertFor(request: ScoringRequest, score: real): Alert {
    Alert("MlAnomalyDetector", score, request.instrumentId, [request.accountId], [], request.timestampNs,
          request.timestampNs, request.bookSnapshotSequence)
  }

  function Score(threshold: real): (Tally, Answered) -> Tally {
    (t: Tally, a: Answered) =>
      match a.result
      case None => t.(failed := t.failed + 1)
      case Some(r) =>
        if r.anomalyScore < threshold then t.(scored := t.scored + 1)
        else t.(scored := t.scored + 1, alerted := t.alerted + 1, alerts := t.alerts + [AlertFor(a.request, r.anomalyScore)])
  }

  /** The popped requests paired with an answer each. */
  function Pair(requests: seq<ScoringRequest>, answers: seq<Option<ScoringResult>>): seq<Answered>
    requires |requests| == |answers|
  {
    seq(|requests|, k requires 0 <= k < |requests| => Answered(requests[k], answers[k]))
  }

  predicate IsAlerting(threshold: real, a: Answered) {
    a.result.Some? && a.result.value.anomalyScore >= threshold
  }

  /** The alerts due, answer by answer. */
  function AlertsDue(threshold: real, answered: seq<Answered>): seq<Alert> {
    if answered == [] then []
    else
      var a := answered[|answered| - 1];
      AlertsDue(threshold, answered[..|answered| - 1])
      + (if IsAlerting(threshold, a) then [AlertFor(a.request, a.result.value.anomalyScore)] else [])
  }

  function Unanswered(answered: seq<Answered>): nat {
    if answered == [] then 0
    else Unanswered(answered[..|answered| - 1]) + (if answered[|answered| - 1].result.None? then 1 else 0)
  }

  lemma {:induction false} TallyCounts(threshold: real, answered: seq<Answered>)
    ensures var t := Fold(Score(threshold), NOTHING, answered);
            && t.scored + t.failed == |answered| && t.failed == Unanswered(answered)
            && t.alerts == AlertsDue(threshold, answered) && t.alerted == |t.alerts| <= t.scored
  {
    if answered != [] {
      TallyCounts(threshold, answered[..|answered| - 1]);
    }
  }

  /**
   Whatever the schedule and whatever the service answers, once the worker's loop has exited every
   submitted request was scored, failed, or was dropped by the queue.
   */
  lemma WorkerAccounts(threshold: real, cap: nat, blank: ScoringRequest, submitted: seq<ScoringRequest>,
                       ticks: seq<Tick>, z: System<ScoringRequest>, answers: seq<Option<ScoringResult>>)
    requires cap >= 2 && Leads(Start(cap, blank, submitted), ticks, z) && z.loop.Exited?
    requires |answers| == |z.ring.popped|
    ensures var t := Fold(Score(threshold), NOTHING, Pair(z.ring.popped, answers));
            && t.scored + t.failed + z.ring.dropCount == |submitted|
            && t.alerted == |t.alerts| && t.alerts == AlertsDue(threshold, Pair(z.ring.popped, answers))
  {
    DrainAccountsForEverything(cap, blank, submitted, ticks, z);
    TallyCounts(threshold, Pair(z.ring.popped, answers));
  }

  /** With room for every request none is dropped, and each one is answered in the order it was submitted. */
  lemma EveryRequestIsScored(threshold: real, cap: nat, blank: ScoringRequest, submitted: seq<ScoringRequest>,
                             ticks: seq<Tick>, z: System<ScoringRequest>, answers: seq<Option<ScoringResult>>)
    requires cap >= 2 && |submitted| <= cap && Leads(Start(cap, blank, submitted), ticks, z) && z.loop.Exited?
    requires |answers| == |submitted|
    ensures z.ring.popped == submitted && z.ring.dropCount == 0
    ensures var t := Fold(Score(threshold), NOTHING, Pair(submitted, answers));
            t.scored + t.failed == |submitted| && t.alerts == AlertsDue(threshold, Pair(submitted, answers))
  {
    RoomForAllMeansNoDrops(cap, blank, submitted, ticks, z);
    TallyCounts(threshold, Pair(submitted, answers));
  }

  /** An alert reports a request whose score reached the threshold: its account, instrument and moment. */
  predicate ReportsScore(threshold: real, alert: Alert, a: Answered) {
    && a.result.Some? && alert.score == a.result.value.anomalyScore && alert.score >= threshold
    && alert.detectorName == "MlAnomalyDetector" && alert.instrumentId == a.request.instrumentId
    && alert.accountIds == [a.request.accountId] && alert.orderIds == []
    && alert.windowStartNs == a.request.timestampNs && alert.windowEndNs == a.request.timestampNs
    && alert.bookSnapshotSequence == a.request.bookSnapshotSequence
  }

  /** The answers that call for an alert, in order. */
  function Alarming(threshold: real, answered: seq<Answered>): seq<Answered> {
    if answered == [] then []
    else
      (match answered[0].result
       case Some(r) => if threshold <= r.anomalyScore then [answered[0]] else []
       case None => [])
      + Alarming(threshold, answered[1..])
  }

  lemma {:induction false} AlarmingOneMore(threshold: real, answered: seq<Answered>, a: Answered)
    ensures Alarming(threshold, answered + [a]) ==
            Alarming(threshold, answered) + (if IsAlerting(threshold, a) then [a] else [])
  {
    if answered == [] {
      assert answered + [a] == [a] && [a][1..] == [];
    } else {
      assert (answered + [a])[1..] == answered[1..] + [a];
      AlarmingOneMore(threshold, answered[1..], a);
    }
  }

  /** The alerts due are one for each score that reaches the threshold, in the order of the answers. */
  lemma {:induction false} DueAreAlarming(threshold: real, answered: seq<Answered>)
    ensures var due, alarming := AlertsDue(threshold, answered), Alarming(threshold, answered);
            |due| == |alarming| && forall k :: 0 <= k < |due| ==> ReportsScore(threshold, due[k], alarming[k])
  {
    if answered != [] {
      var init, a := answered[..|answered| - 1], answered[|answered| - 1];
      DueAreAlarming(threshold, init);
      AlarmingOneMore(threshold, init, a);
      hide Alarming;
      assert answered == init + [a];
    }
  }

  class MlScoringWorker {
    const alertThreshold: real
    var sink: seq<Alert>
    var scored: nat
    var failed: nat
    var alerted: nat

    ghost function Now(): Tally
      reads this
    {
      Tally(scored, failed, alerted, sink)
    }

    constructor (alertThreshold: real)
      ensures Now() == NOTHING && this.alertThreshold == alertThreshold
    {
      this.alertThreshold := alertThreshold;
      sink, scored, failed, alerted := [], 0, 0, 0;
    }

    method ProcessOne(request: ScoringRequest, result: Option<ScoringResult>)
      modifies this
      ensures Now() == Score(alertThreshold)(old(Now()), Answered(request, result))
    {
      if result.None? {
        failed := failed + 1;
        return;
      }
      scored := scored + 1;
      if result.value.anomalyScore < alertThreshold {
        return;
      }
      alerted := alerted + 1;
      sink := sink + [AlertFor(request, result.value.anomalyScore)];
    }
  }
}
