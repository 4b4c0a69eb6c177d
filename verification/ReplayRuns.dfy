/**
 A whole replay: simulated orders and executions are merged, books reject some of the events, and the
 detectors are shown the rest. What the windows of two detectors are worth on such a stream, and what
 becomes of the requests one of them submits.
 */
module ReplayRuns {
  import opened Options
  import opened FixTypes
  import opened BookModel
  import opened PipelineModel
  import opened ReplayEvents
  import opened RingDrain
  import opened MlScoringWorkers
  import Accounts
  import FrontRunning
  import FrontRunningVerdicts
  import opened MlWindow

  /** The events of a replay, unless an execution names an unknown order. */
  function Replayed(orders: seq<SimOrder>, executions: seq<SimExecution>): Option<seq<Event>> {
    MergedWithin(orders, executions);
    Convert(orders, executions, StableSort(Items(orders, executions)))
  }

  /** The events behind a list of sightings. */
  function Shown(seen: seq<Sighting>): (r: seq<Event>)
    ensures |r| == |seen|
  {
    if seen == [] then [] else Shown(seen[..|seen| - 1]) + [seen[|seen| - 1].event]
  }

  ghost predicate UpTo(events: seq<Event>, latest: int) {
    ReplayEvents.TimesNeverFall(events) && forall i :: 0 <= i < |events| ==> events[i].TimestampNs() <= latest
  }

  lemma OneMoreUpTo(shown: seq<Event>, e: Event, latest: int)
    requires UpTo(shown, e.TimestampNs()) && e.TimestampNs() <= latest
    ensures UpTo(shown, latest) && UpTo(shown + [e], latest)
  {
  }

  lemma FrontUpTo(events: seq<Event>, latest: int)
    requires events != [] && UpTo(events, latest)
    ensures UpTo(events[..|events| - 1], events[|events| - 1].TimestampNs())
    ensures events[|events| - 1].TimestampNs() <= latest
  {
  }

  lemma ShownGrows(events: seq<Event>)
    requires events != []
    ensures var before, e := Shown(Accepted(events[..|events| - 1])), events[|events| - 1];
            Shown(Accepted(events)) == before || Shown(Accepted(events)) == before + [e]
  {
    hide LastOutcome;
    var seen, r := Accepted(events[..|events| - 1]), LastOutcome(events);
    if r.ok {
      var x := Sighting(r.book, events[|events| - 1]);
      assert (seen + [x])[..|seen|] == seen;
    } else {
      assert seen + [] == seen;
    }
  }

  lemma NothingShown()
    ensures Shown(Accepted([])) == []
  {
  }

  /** The events the detectors are shown keep the replay's order in time. */
  lemma {:induction false} ShownNeverFall(events: seq<Event>, latest: int)
    requires UpTo(events, latest)
    ensures UpTo(Shown(Accepted(events)), latest)
  {
    hide Shown, Accepted, UpTo;
    if events == [] {
      NothingShown();
    } else {
      var init, e := events[..|events| - 1], events[|events| - 1];
      FrontUpTo(events, latest);
      ShownNeverFall(init, e.TimestampNs());
      ShownGrows(events);
      OneMoreUpTo(Shown(Accepted(init)), e, latest);
    }
  }

  lemma {:induction false} ShownAreEvents(events: seq<Event>, e: Event)
    requires e in Shown(Accepted(events))
    ensures e in events
  {
    hide Shown, Accepted;
    if events == [] {
      NothingShown();
    } else {
      ShownGrows(events);
      if e != events[|events| - 1] {
        ShownAreEvents(events[..|events| - 1], e);
      }
    }
  }

  // -------------------------------------------------------- what the windows see

  /** The orders of a list of events that satisfy a condition, in order. */
  function OrdersWhere(events: seq<Event>, wanted: Order -> bool): seq<Order> {
    if events == [] then []
    else
      var e := events[|events| - 1];
      OrdersWhere(events[..|events| - 1], wanted) + (if e.OrderEvent? && wanted(e.order) then [e.order] else [])
  }

  ghost predicate OrdersUpTo(orders: seq<Order>, latest: int) {
    MlWindow.TimesNeverFall(orders) && forall i :: 0 <= i < |orders| ==> orders[i].timestampNs <= latest
  }

  lemma {:induction false} OrdersNeverFall(events: seq<Event>, wanted: Order -> bool, latest: int)
    requires UpTo(events, latest)
    ensures OrdersUpTo(OrdersWhere(events, wanted), latest)
    ensures forall o :: o in OrdersWhere(events, wanted) ==> OrderEvent(o) in events && wanted(o)
  {
    if events != [] {
      var init, e := events[..|events| - 1], events[|events| - 1];
      OrdersNeverFall(init, wanted, e.TimestampNs());
      assert events == init + [e];
    }
  }

  function IsNew(): Order -> bool {
    (o: Order) => o.status.New?
  }

  /**
   In a replay the reactions reported to each accepted New are exactly those a scan of all accepted News
   before it finds, in arrival order: pruning the windows loses none.
   */
  lemma ReplayedReactionsAreExact(orders: seq<SimOrder>, executions: seq<SimExecution>, cfg: FrontRunning.Config,
                                  accounts: Accounts.Entities, k: nat)
    requires Replayed(orders, executions).Some?
    requires var shown := Shown(Accepted(Replayed(orders, executions).value));
             k < |shown| && shown[k].OrderEvent? && shown[k].order.status.New?
    ensures var seen := Accepted(Replayed(orders, executions).value);
            var history, o, b := OrdersWhere(Shown(seen)[..k], IsNew()), Shown(seen)[k].order, seen[k].book;
            FrontRunning.AlertsAgainst(cfg, accounts, o, b.sequence, FrontRunning.Visible(cfg, history, o))
            == FrontRunning.AlertsAgainst(cfg, accounts, o, b.sequence, FrontRunning.Candidates(cfg, history, o))
    ensures var seen := Accepted(Replayed(orders, executions).value);
            var history, o, b := OrdersWhere(Shown(seen)[..k], IsNew()), Shown(seen)[k].order, seen[k].book;
            FrontRunningVerdicts.ReportsAll(
              FrontRunning.AlertsAgainst(cfg, accounts, o, b.sequence, FrontRunning.Visible(cfg, history, o)),
              FrontRunningVerdicts.Victims(cfg, accounts, history, o), o, b.sequence)
  {
    hide Accepted, Shown, OrdersWhere, FrontRunningVerdicts.ReportsAll, FrontRunningVerdicts.Victims;
    hide FrontRunning.AlertsAgainst, FrontRunning.Visible, FrontRunning.Candidates;
    var events := Replayed(orders, executions).value;
    var seen := Accepted(events);
    ReplayNeverGoesBack(orders, executions);
    ShownNeverFall(events, if events == [] then 0 else events[|events| - 1].TimestampNs());
    var o := Shown(seen)[k].order;
    OrdersNeverFall(Shown(seen)[..k], IsNew(), o.timestampNs);
    FrontRunning.AlertsAreExact(cfg, accounts, OrdersWhere(Shown(seen)[..k], IsNew()), o, seen[k].book.sequence);
    FrontRunningVerdicts.EveryVictimIsReported(cfg, accounts, OrdersWhere(Shown(seen)[..k], IsNew()), o, seen[k].book.sequence);
  }

  // ------------------------------------------------------------- scoring requests

  /** The orders the anomaly detector handles, each with its book's sequence number. */
  function HandledIn(seen: seq<Sighting>): (r: seq<Handled>)
    ensures |r| <= |seen|
  {
    if seen == [] then []
    else
      var x := seen[|seen| - 1];
      HandledIn(seen[..|seen| - 1])
      + (if x.event.OrderEvent? then [Handled(x.event.order, x.book.sequence)] else [])
  }

  function OfKey(key: Key): Order -> bool {
    (o: Order) => KeyFor(o) == key
  }

  lemma {:induction false} HandledOfKey(seen: seq<Sighting>, key: Key)
    ensures OrdersFor(HandledIn(seen), key) == OrdersWhere(Shown(seen), OfKey(key))
  {
    if seen != [] {
      var init, x := seen[..|seen| - 1], seen[|seen| - 1];
      HandledOfKey(init, key);
      var before := HandledIn(init);
      assert Shown(seen)[..|init|] == Shown(init);
      if x.event.OrderEvent? {
        assert (before + [Handled(x.event.order, x.book.sequence)])[..|before|] == before;
      } else {
        assert before + [] == before;
      }
    }
  }

  /** The simulated orders as the ground truth holds them, accepted by a book or not. */
  function Given(orders: seq<SimOrder>): seq<Order> {
    seq(|orders|, i requires 0 <= i < |orders| => ToFixOrder(orders[i]))
  }

  lemma ReplayedOrdersAreGiven(orders: seq<SimOrder>, executions: seq<SimExecution>, o: Order)
    requires Replayed(orders, executions).Some? && OrderEvent(o) in Replayed(orders, executions).value
    ensures o in Given(orders)
  {
    hide Convert;
    var items := StableSort(Items(orders, executions));
    var events := Replayed(orders, executions).value;
    MergedWithin(orders, executions);
    ConvertEach(orders, executions, items);
    var i :| 0 <= i < |events| && events[i] == OrderEvent(o);
    assert WithinInputs(orders, executions, items[i]);
    assert EventOf(orders, executions, items[i]) == Some(events[i]);
    assert Given(orders)[items[i].index] == o;
  }

  /** A replay holds no Replace, so whatever the books hold none of its events takes a resting order's id. */
  lemma ReplayStealsNoId(orders: seq<SimOrder>, executions: seq<SimExecution>, b: Book, e: Event)
    requires Replayed(orders, executions).Some? && e in Replayed(orders, executions).value
    ensures !StealsId(b, e)
  {
    if e.OrderEvent? {
      ReplayedOrdersAreGiven(orders, executions, e.order);
    }
  }

  /**
   In a replay, the window of a key that has counted an abusive order is judged positive by a ground
   truth built from all simulated orders, including those a book rejected and no detector was shown.
   */
  lemma ReplayedAbuseIsPositive(orders: seq<SimOrder>, executions: seq<SimExecution>, cfg: MlWindow.Config, key: Key,
                                abusive: Order -> bool, n: nat, o: Order)
    requires cfg.windowDurationNs >= 0 && Replayed(orders, executions).Some?
    requires var handled := OrdersFor(HandledIn(Accepted(Replayed(orders, executions).value)), key);
             0 < n <= |handled| && o in WindowAfter(cfg, handled[..n]).counted && abusive(o)
    ensures var handled := OrdersFor(HandledIn(Accepted(Replayed(orders, executions).value)), key);
            var times := SortedTimes(Given(orders), x => KeyFor(x) == key && abusive(x));
            Ascending(times) && JudgedPositive(cfg, times, handled[n - 1].timestampNs)
  {
    hide Replayed, Accepted, Shown, OrdersWhere, HandledIn, OrdersFor, WindowAfter, SortedTimes;
    var events := Replayed(orders, executions).value;
    var handled := OrdersFor(HandledIn(Accepted(events)), key);
    ReplayGoesForward(orders, executions, key);
    CountedComeFromOrders(cfg, handled[..n]);
    assert o in handled;
    CountedAbuseIsPositive(cfg, Given(orders), handled, x => KeyFor(x) == key && abusive(x), n, o);
  }

  lemma ReplayGoesForward(orders: seq<SimOrder>, executions: seq<SimExecution>, key: Key)
    requires Replayed(orders, executions).Some?
    ensures var handled := OrdersFor(HandledIn(Accepted(Replayed(orders, executions).value)), key);
            && MlWindow.TimesNeverFall(handled)
            && forall o :: o in handled ==> o in Given(orders) && KeyFor(o) == key
  {
    hide Accepted, Shown, OrdersWhere, HandledIn, OrdersFor, Convert;
    var events := Replayed(orders, executions).value;
    var seen := Accepted(events);
    ReplayNeverGoesBack(orders, executions);
    var latest := if events == [] then 0 else events[|events| - 1].TimestampNs();
    ShownNeverFall(events, latest);
    OrdersNeverFall(Shown(seen), OfKey(key), latest);
    HandledOfKey(seen, key);
    forall o | o in OrdersWhere(Shown(seen), OfKey(key))
      ensures o in Given(orders)
    {
      ShownAreEvents(events, OrderEvent(o));
      ReplayedOrdersAreGiven(orders, executions, o);
    }
  }

  function Requests(submitted: seq<Submission>): (r: seq<ScoringRequest>)
    ensures |r| == |submitted|
  {
    seq(|submitted|, k requires 0 <= k < |submitted| =>
      var s := submitted[k];
      ScoringRequest(s.key.accountId, s.key.instrumentId, s.timestampNs, s.bookSnapshotSequence))
  }

  lemma {:induction false} AcceptedAreEvents(events: seq<Event>)
    ensures |Accepted(events)| <= |events|
  {
    if events != [] {
      AcceptedAreEvents(events[..|events| - 1]);
    }
  }

  /**
   A queue with a cell for every event of the run has room for every request, because an accepted event
   leads to at most one: whatever the schedule, each request submitted is answered, in order.
   */
  lemma EveryReplayedRequestIsScored(cfg: MlWindow.Config, events: seq<Event>, threshold: real,
                                     cap: nat, blank: ScoringRequest, ticks: seq<Tick>, z: System<ScoringRequest>,
                                     answers: seq<Option<ScoringResult>>)
    requires cfg.submitEveryNOrders != 0 && cap >= 2 && cap >= |events|
    requires Leads(RingDrain.Start(cap, blank, Requests(Submitted(cfg, HandledIn(Accepted(events))))), ticks, z)
    requires z.loop.Exited? && |answers| == |Submitted(cfg, HandledIn(Accepted(events)))|
    ensures var submitted := Requests(Submitted(cfg, HandledIn(Accepted(events))));
            && z.ring.popped == submitted && z.ring.dropCount == 0
            && var t := Fold(Score(threshold), NOTHING, Pair(submitted, answers));
               t.scored + t.failed == |submitted| && t.alerts == AlertsDue(threshold, Pair(submitted, answers))
  {
    hide Accepted, HandledIn, Submitted, Leads;
    AcceptedAreEvents(events);
    MlScoringWorkers.EveryRequestIsScored(threshold, cap, blank, Requests(Submitted(cfg, HandledIn(Accepted(events)))),
                                          ticks, z, answers);
  }
}
