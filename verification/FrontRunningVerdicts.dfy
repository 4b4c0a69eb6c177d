/** Which pairs of orders the front-running detector reports, and what it says of each. */
module FrontRunningVerdicts {
  import opened FixTypes
  import opened Accounts
  import opened Alerts
  import opened RollingWindow
  import opened FrontRunning

  /**
   `o` was placed on the same side of the same instrument as `prior`, not before it and no longer after it
   than the lookback, by another and related account; `prior` is large, and `o` small next to it.
   */
  predicate FrontRuns(cfg: Config, accounts: Entities, prior: Order, o: Order) {
    && prior.instrumentId == o.instrumentId && prior.side == o.side
    && prior.timestampNs <= o.timestampNs && o.timestampNs <= prior.timestampNs + cfg.lookbackWindowNs
    && prior.accountId != o.accountId && IsRelated(accounts, prior.accountId, o.accountId)
    && prior.qty >= cfg.minLargeQtyThreshold
    && cfg.maxLeaderToLargeSizeRatio * prior.qty as real >= o.qty as real
  }

  /** What is reported of such a pair: the earlier order first, and the time between the two. */
  predicate Reports(a: Alert, prior: Order, o: Order, sequence: nat) {
    && a.detectorName == "FrontRunningDetector" && a.score == 1.0 && a.instrumentId == o.instrumentId
    && a.accountIds == [prior.accountId, o.accountId] && a.orderIds == [prior.orderId, o.orderId]
    && a.windowStartNs == prior.timestampNs && a.windowEndNs == o.timestampNs && a.bookSnapshotSequence == sequence
  }

  /** The earlier orders that `o` front-runs, oldest first. */
  function Victims(cfg: Config, accounts: Entities, history: seq<Order>, o: Order): seq<Order> {
    if history == [] then []
    else (if FrontRuns(cfg, accounts, history[0], o) then [history[0]] else []) + Victims(cfg, accounts, history[1..], o)
  }

  /** One report for each victim, in order. */
  ghost predicate ReportsAll(alerts: seq<Alert>, victims: seq<Order>, o: Order, sequence: nat) {
    |alerts| == |victims| && forall k :: 0 <= k < |alerts| ==> Reports(alerts[k], victims[k], o, sequence)
  }

  lemma {:induction false} VictimsOneMore(cfg: Config, accounts: Entities, history: seq<Order>, h: Order, o: Order)
    ensures Victims(cfg, accounts, history + [h], o)
            == Victims(cfg, accounts, history, o) + (if FrontRuns(cfg, accounts, h, o) then [h] else [])
  {
    hide FrontRuns;
    if history == [] {
      assert history + [h] == [h] && [h][1..] == [];
    } else {
      assert (history + [h])[1..] == history[1..] + [h];
      VictimsOneMore(cfg, accounts, history[1..], h, o);
    }
  }

  lemma ReactsIffFrontRuns(cfg: Config, accounts: Entities, h: Order, o: Order)
    requires KeyFor(h) == KeyFor(o) && o.timestampNs - h.timestampNs <= cfg.lookbackWindowNs
    ensures Reacts(cfg, accounts, o, Recent(h)) <==> FrontRuns(cfg, accounts, h, o)
  {
    RelatedSymmetric(accounts, h.accountId, o.accountId);
  }

  lemma FarIsNoVictim(cfg: Config, accounts: Entities, h: Order, o: Order)
    requires !(KeyFor(h) == KeyFor(o) && o.timestampNs - h.timestampNs <= cfg.lookbackWindowNs)
    ensures !FrontRuns(cfg, accounts, h, o)
  {
  }

  lemma AlertReports(h: Order, o: Order, sequence: nat)
    requires KeyFor(h) == KeyFor(o)
    ensures Reports(AlertFor(o, Recent(h), sequence), h, o, sequence)
  {
  }

  lemma OneMoreReport(alerts: seq<Alert>, victims: seq<Order>, a: Alert, h: Order, o: Order, sequence: nat)
    requires ReportsAll(alerts, victims, o, sequence)
    ensures Reports(a, h, o, sequence) ==> ReportsAll(alerts + [a], victims + [h], o, sequence)
  {
  }

  /** What one more earlier order adds to the candidates and to the alerts against them. */
  lemma AlertsOneMore(cfg: Config, accounts: Entities, init: seq<Order>, h: Order, o: Order, sequence: nat)
    ensures var before := AlertsAgainst(cfg, accounts, o, sequence, Candidates(cfg, init, o));
            var near := KeyFor(h) == KeyFor(o) && o.timestampNs - h.timestampNs <= cfg.lookbackWindowNs;
            AlertsAgainst(cfg, accounts, o, sequence, Candidates(cfg, init + [h], o)) ==
            before + (if near && Reacts(cfg, accounts, o, Recent(h)) then [AlertFor(o, Recent(h), sequence)] else [])
  {
    hide Reacts, AlertFor;
    assert (init + [h])[..|init|] == init;
    var entries := Candidates(cfg, init, o);
    var before := AlertsAgainst(cfg, accounts, o, sequence, entries);
    assert (entries + [Recent(h)])[..|entries|] == entries;
    assert entries + [] == entries && before + [] == before;
  }

  lemma {:induction false} CandidatesReport(cfg: Config, accounts: Entities, history: seq<Order>, o: Order, sequence: nat)
    ensures ReportsAll(AlertsAgainst(cfg, accounts, o, sequence, Candidates(cfg, history, o)),
                       Victims(cfg, accounts, history, o), o, sequence)
  {
    hide Reacts, FrontRuns, Reports, AlertFor, Recent;
    if history != [] {
      var init, h := history[..|history| - 1], history[|history| - 1];
      CandidatesReport(cfg, accounts, init, o, sequence);
      assert history == init + [h];
      VictimsOneMore(cfg, accounts, init, h, o);
      AlertsOneMore(cfg, accounts, init, h, o, sequence);
      ReportsOneMore(cfg, accounts, AlertsAgainst(cfg, accounts, o, sequence, Candidates(cfg, init, o)),
                     Victims(cfg, accounts, init, o), h, o, sequence);
    }
  }

  lemma ReportsOneMore(cfg: Config, accounts: Entities, alerts: seq<Alert>, victims: seq<Order>, h: Order, o: Order,
                       sequence: nat)
    requires ReportsAll(alerts, victims, o, sequence)
    ensures var near := KeyFor(h) == KeyFor(o) && o.timestampNs - h.timestampNs <= cfg.lookbackWindowNs;
            var more := if near && Reacts(cfg, accounts, o, Recent(h)) then [AlertFor(o, Recent(h), sequence)] else [];
            ReportsAll(alerts + more,
                       victims + (if FrontRuns(cfg, accounts, h, o) then [h] else []), o, sequence)
  {
    hide Reacts, FrontRuns, Reports, AlertFor, Recent;
    assert victims + [] == victims && alerts + [] == alerts;
    if KeyFor(h) == KeyFor(o) && o.timestampNs - h.timestampNs <= cfg.lookbackWindowNs {
      ReactsIffFrontRuns(cfg, accounts, h, o);
      AlertReports(h, o, sequence);
      OneMoreReport(alerts, victims, AlertFor(o, Recent(h), sequence), h, o, sequence);
    } else {
      FarIsNoVictim(cfg, accounts, h, o);
    }
  }

  /**
   While a key's timestamps never fall, a New is reported against exactly the earlier orders it front-runs,
   each once, in the order of their arrival.
   */
  lemma EveryVictimIsReported(cfg: Config, accounts: Entities, history: seq<Order>, o: Order, sequence: nat)
    requires TimesNeverFall(history, o)
    ensures ReportsAll(AlertsAgainst(cfg, accounts, o, sequence, Visible(cfg, history, o)),
                       Victims(cfg, accounts, history, o), o, sequence)
  {
    AlertsAreExact(cfg, accounts, history, o, sequence);
    CandidatesReport(cfg, accounts, history, o, sequence);
  }

  /** The earlier orders of the key with which an entry of its window can have come. */
  ghost predicate CameFrom(history: seq<Order>, key: Key, r: RecentOrder) {
    exists h :: h in history && KeyFor(h) == key && Recent(h) == r
  }

  lemma CameBefore(init: seq<Order>, h: Order, key: Key, r: RecentOrder)
    requires CameFrom(init, key, r) || (KeyFor(h) == key && Recent(h) == r)
    ensures CameFrom(init + [h], key, r)
  {
    if CameFrom(init, key, r) {
      var x :| x in init && KeyFor(x) == key && Recent(x) == r;
      assert x in init + [h];
    } else {
      assert h in init + [h];
    }
  }

  lemma {:induction false} WindowCameFrom(cfg: Config, history: seq<Order>, key: Key)
    ensures forall r :: r in Window(cfg, history, key) ==> CameFrom(history, key, r)
  {
    if history != [] {
      var init, h := history[..|history| - 1], history[|history| - 1];
      WindowCameFrom(cfg, init, key);
      assert history == init + [h];
      WindowGrows(cfg, init, h, key);
      PruneIsNear(Window(cfg, init, key), h.timestampNs, cfg.lookbackWindowNs);
      hide Window, CameFrom;
      forall r | r in Window(cfg, history, key)
        ensures CameFrom(history, key, r)
      {
        CameBefore(init, h, key, r);
      }
    }
  }

  ghost predicate IsJustified(cfg: Config, accounts: Entities, history: seq<Order>, o: Order, sequence: nat, a: Alert) {
    exists h :: h in history && FrontRuns(cfg, accounts, h, o) && Reports(a, h, o, sequence)
  }

  /** Whatever the timestamps do, nothing is reported but earlier orders that the New front-runs. */
  lemma EveryReportIsJustified(cfg: Config, accounts: Entities, history: seq<Order>, o: Order, sequence: nat)
    ensures forall a :: a in AlertsAgainst(cfg, accounts, o, sequence, Visible(cfg, history, o)) ==>
              IsJustified(cfg, accounts, history, o, sequence, a)
  {
    var entries := Visible(cfg, history, o);
    AlertsComeFromEntries(cfg, accounts, o, sequence, entries);
    PruneIsNear(Window(cfg, history, KeyFor(o)), o.timestampNs, cfg.lookbackWindowNs);
    WindowCameFrom(cfg, history, KeyFor(o));
    hide Window, AlertsAgainst, Reacts, FrontRuns, AlertFor, Recent;
    forall a | a in AlertsAgainst(cfg, accounts, o, sequence, entries)
      ensures IsJustified(cfg, accounts, history, o, sequence, a)
    {
      var r :| r in entries && Reacts(cfg, accounts, o, r) && a == AlertFor(o, r, sequence);
      assert CameFrom(history, KeyFor(o), r);
      var h :| h in history && KeyFor(h) == KeyFor(o) && Recent(h) == r;
      EntryIsNear(h, r, o, cfg);
      ReactsIffFrontRuns(cfg, accounts, h, o);
      AlertReports(h, o, sequence);
    }
  }

  lemma EntryIsNear(h: Order, r: RecentOrder, o: Order, cfg: Config)
    requires Recent(h) == r && Distance(o.timestampNs, r.timestampNs) <= cfg.lookbackWindowNs
    ensures o.timestampNs - h.timestampNs <= cfg.lookbackWindowNs
  {
  }
}
