/** Small orders placed shortly after a related account's large order, against a brute-force reference. */
module FrontRunning {
  import opened FixTypes
  import opened Accounts
  import opened Alerts
  import opened RollingWindow

  datatype Config = Config(lookbackWindowNs: int, minLargeQtyThreshold: int, maxLeaderToLargeSizeRatio: real)

  datatype RecentOrder = RecentOrder(accountId: string, orderId: string, qty: int, timestampNs: int)

  datatype Key = Key(instrumentId: string, side: Side)

  function KeyFor(o: Order): Key {
    Key(o.instrumentId, o.side)
  }

  function Recent(o: Order): RecentOrder {
    RecentOrder(o.accountId, o.orderId, o.qty, o.timestampNs)
  }

  function TimeOf(): RecentOrder -> int {
    (r: RecentOrder) => r.timestampNs
  }

  /** `o` reacts to `prior`: another, related account's large order, not smaller than allowed, not later. */
  predicate Reacts(cfg: Config, accounts: Entities, o: Order, prior: RecentOrder) {
    && prior.accountId != o.accountId
    && IsRelated(accounts, o.accountId, prior.accountId)
    && prior.qty >= cfg.minLargeQtyThreshold
    && o.qty as real <= prior.qty as real * cfg.maxLeaderToLargeSizeRatio
    && o.timestampNs >= prior.timestampNs
  }

  function AlertFor(o: Order, prior: RecentOrder, sequence: nat): Alert {
    Alert("FrontRunningDetector", 1.0, o.instrumentId, [prior.accountId, o.accountId], [prior.orderId, o.orderId],
          prior.timestampNs, o.timestampNs, sequence)
  }

  /** One alert per entry that `o` reacts to, in the order of the entries. */
  function AlertsAgainst(cfg: Config, accounts: Entities, o: Order, sequence: nat, entries: seq<RecentOrder>): seq<Alert> {
    if entries == [] then []
    else
      var n := |entries| - 1;
      AlertsAgainst(cfg, accounts, o, sequence, entries[..n])
      + (if Reacts(cfg, accounts, o, entries[n]) then [AlertFor(o, entries[n], sequence)] else [])
  }

  /** The New orders of one key as a stream of window events, each adding itself. */
  function StreamOf(history: seq<Order>, key: Key): seq<Tick<RecentOrder>> {
    if history == [] then []
    else
      var n := |history| - 1;
      StreamOf(history[..n], key) + (if KeyFor(history[n]) == key then [Tick(history[n].timestampNs, [Recent(history[n])])] else [])
  }

  class FrontRunningDetector {
    const config: Config
    var recentByKey: map<Key, seq<RecentOrder>>
    ghost var history: seq<Order>

    ghost predicate Valid()
      reads this
    {
      forall key :: RecentFor(key) == Window(config, history, key)
    }

    constructor (config: Config)
      ensures Valid() && history == [] && this.config == config
    {
      this.config := config;
      recentByKey := map[];
      history := [];
    }

    function RecentFor(key: Key): seq<RecentOrder>
      reads this
    {
      if key in recentByKey then recentByKey[key] else []
    }

    method MatchAgainst(o: Order, accounts: Entities, sequence: nat, recent: seq<RecentOrder>) returns (alerts: seq<Alert>)
      ensures alerts == AlertsAgainst(config, accounts, o, sequence, recent)
    {
      alerts := [];
      for i := 0 to |recent|
        invariant alerts == AlertsAgainst(config, accounts, o, sequence, recent[..i])
      {
        assert recent[..i + 1][..i] == recent[..i];
        if Reacts(config, accounts, o, recent[i]) {
          alerts := alerts + [AlertFor(o, recent[i], sequence)];
        }
      }
      assert recent[..|recent|] == recent;
    }

    /** Reports against what survives in the order's own key, then joins the window itself. */
    method HandleNew(o: Order, accounts: Entities, sequence: nat) returns (alerts: seq<Alert>)
      requires Valid()
      modifies this
      ensures Valid() && history == old(history) + [o]
      ensures alerts == AlertsAgainst(config, accounts, o, sequence, Visible(config, old(history), o))
    {
      var key := KeyFor(o);
      var recent := PruneLoop(RecentFor(key), TimeOf(), o.timestampNs, config.lookbackWindowNs);
      alerts := MatchAgainst(o, accounts, sequence, recent);
      hide Window, AlertsAgainst;
      forall k
        ensures Window(config, history + [o], k) == if k == key then recent + [Recent(o)] else Window(config, history, k)
      {
        WindowGrows(config, history, o, k);
      }
      recentByKey := recentByKey[key := recent + [Recent(o)]];
      history := history + [o];
    }
  }

  /** What the detector holds for a key after a history of New orders. */
  function Window(cfg: Config, history: seq<Order>, key: Key): seq<RecentOrder> {
    Contents(StreamOf(history, key), TimeOf(), cfg.lookbackWindowNs)
  }

  /** What `o` is compared with: the window of its key, pruned by its own timestamp. */
  function Visible(cfg: Config, history: seq<Order>, o: Order): seq<RecentOrder> {
    Prune(Window(cfg, history, KeyFor(o)), TimeOf(), o.timestampNs, cfg.lookbackWindowNs)
  }

  lemma WindowGrows(cfg: Config, history: seq<Order>, o: Order, key: Key)
    ensures Window(cfg, history + [o], key) ==
            if key == KeyFor(o) then Visible(cfg, history, o) + [Recent(o)] else Window(cfg, history, key)
  {
    var stream, e := StreamOf(history, key), Tick(o.timestampNs, [Recent(o)]);
    assert (history + [o])[..|history|] == history;
    if key == KeyFor(o) {
      assert (stream + [e])[..|stream|] == stream;
    } else {
      assert stream + [] == stream;
    }
  }

  // ------------------------------------------------------------- exactness

  /** All earlier orders of the key that lie within the lookback of `o`, found by scanning the whole history. */
  function Candidates(cfg: Config, history: seq<Order>, o: Order): seq<RecentOrder> {
    if history == [] then []
    else
      var n := |history| - 1;
      Candidates(cfg, history[..n], o)
      + (if KeyFor(history[n]) == KeyFor(o) && o.timestampNs - history[n].timestampNs <= cfg.lookbackWindowNs
         then [Recent(history[n])] else [])
  }

  ghost predicate TimesNeverFall(history: seq<Order>, o: Order) {
    && (forall i, j :: 0 <= i <= j < |history| && KeyFor(history[i]) == KeyFor(o) && KeyFor(history[j]) == KeyFor(o) ==>
          history[i].timestampNs <= history[j].timestampNs)
    && (forall i :: 0 <= i < |history| && KeyFor(history[i]) == KeyFor(o) ==> history[i].timestampNs <= o.timestampNs)
  }

  /** Pruning by a later order after pruning by an earlier one keeps what the later one alone would keep. */
  lemma {:induction false} LaterPruneSubsumes(items: seq<RecentOrder>, t: int, u: int, window: int)
    requires t <= u && forall i :: 0 <= i < |items| ==> items[i].timestampNs <= t
    ensures Prune(Prune(items, TimeOf(), t, window), TimeOf(), u, window) == Prune(items, TimeOf(), u, window)
  {
    if items != [] {
      var n := |items| - 1;
      LaterPruneSubsumes(items[..n], t, u, window);
      PruneAppend(Prune(items[..n], TimeOf(), t, window),
                  if Distance(t, TimeOf()(items[n])) <= window then [items[n]] else [], TimeOf(), u, window);
    }
  }

  lemma {:induction false} PruneKeepsTimes(items: seq<RecentOrder>, now: int, window: int, t: int)
    requires forall i :: 0 <= i < |items| ==> items[i].timestampNs <= t
    ensures forall i :: 0 <= i < |Prune(items, TimeOf(), now, window)| ==> Prune(items, TimeOf(), now, window)[i].timestampNs <= t
  {
    if items != [] {
      PruneKeepsTimes(items[..|items| - 1], now, window, t);
    }
  }

  lemma {:induction false} WindowTimes(cfg: Config, history: seq<Order>, key: Key, t: int)
    requires forall i :: 0 <= i < |history| && KeyFor(history[i]) == key ==> history[i].timestampNs <= t
    ensures forall i :: 0 <= i < |Window(cfg, history, key)| ==> Window(cfg, history, key)[i].timestampNs <= t
  {
    if history != [] {
      var n := |history| - 1;
      WindowTimes(cfg, history[..n], key, t);
      assert history == history[..n] + [history[n]];
      WindowGrows(cfg, history[..n], history[n], key);
      PruneKeepsTimes(Window(cfg, history[..n], key), history[n].timestampNs, cfg.lookbackWindowNs, t);
    }
  }

  /** While a key's timestamps never fall, pruning loses no order that is still within the lookback. */
  lemma {:induction false} VisibleIsCandidates(cfg: Config, history: seq<Order>, o: Order)
    requires TimesNeverFall(history, o)
    ensures Visible(cfg, history, o) == Candidates(cfg, history, o)
  {
    if history != [] {
      var n := |history| - 1;
      var init, h, w := history[..n], history[n], cfg.lookbackWindowNs;
      VisibleIsCandidates(cfg, init, o);
      assert history == init + [h];
      WindowGrows(cfg, init, h, KeyFor(o));
      if KeyFor(h) == KeyFor(o) {
        WindowTimes(cfg, init, KeyFor(o), h.timestampNs);
        PruneAppend(Visible(cfg, init, h), [Recent(h)], TimeOf(), o.timestampNs, w);
        LaterPruneSubsumes(Window(cfg, init, KeyFor(o)), h.timestampNs, o.timestampNs, w);
        assert [Recent(h)][..0] == [];
      }
    }
  }

  /** With timestamps that never fall per key, the alerts are exactly the brute-force ones, in arrival order. */
  lemma AlertsAreExact(cfg: Config, accounts: Entities, history: seq<Order>, o: Order, sequence: nat)
    requires TimesNeverFall(history, o)
    ensures AlertsAgainst(cfg, accounts, o, sequence, Visible(cfg, history, o)) ==
            AlertsAgainst(cfg, accounts, o, sequence, Candidates(cfg, history, o))
  {
    VisibleIsCandidates(cfg, history, o);
  }

  lemma {:induction false} PruneIsNear(items: seq<RecentOrder>, now: int, window: int)
    ensures forall r :: r in Prune(items, TimeOf(), now, window) ==> r in items && Distance(now, r.timestampNs) <= window
  {
    if items != [] {
      var n := |items| - 1;
      PruneIsNear(items[..n], now, window);
      assert items == items[..n] + [items[n]];
    }
  }

  lemma {:induction false} AlertsComeFromEntries(cfg: Config, accounts: Entities, o: Order, sequence: nat, entries: seq<RecentOrder>)
    ensures forall a :: a in AlertsAgainst(cfg, accounts, o, sequence, entries) ==>
              exists r :: r in entries && Reacts(cfg, accounts, o, r) && a == AlertFor(o, r, sequence)
  {
    if entries != [] {
      var n := |entries| - 1;
      AlertsComeFromEntries(cfg, accounts, o, sequence, entries[..n]);
      assert entries == entries[..n] + [entries[n]];
      forall a | a in AlertsAgainst(cfg, accounts, o, sequence, entries)
        ensures exists r :: r in entries && Reacts(cfg, accounts, o, r) && a == AlertFor(o, r, sequence)
      {
        if a in AlertsAgainst(cfg, accounts, o, sequence, entries[..n]) {
          var r :| r in entries[..n] && Reacts(cfg, accounts, o, r) && a == AlertFor(o, r, sequence);
          assert r in entries;
        } else {
          assert entries[n] in entries && a == AlertFor(o, entries[n], sequence);
        }
      }
    }
  }

  /** Whatever the timestamps do, no alert spans a negative time or more than the lookback. */
  lemma AlertSpansAreBounded(cfg: Config, accounts: Entities, history: seq<Order>, o: Order, sequence: nat)
    ensures forall a :: a in AlertsAgainst(cfg, accounts, o, sequence, Visible(cfg, history, o)) ==>
              0 <= a.windowEndNs - a.windowStartNs <= cfg.lookbackWindowNs
  {
    var entries := Visible(cfg, history, o);
    AlertsComeFromEntries(cfg, accounts, o, sequence, entries);
    PruneIsNear(Window(cfg, history, KeyFor(o)), o.timestampNs, cfg.lookbackWindowNs);
  }

  /** Every New order of the key, oldest first. */
  function KeyOrders(history: seq<Order>, key: Key): seq<Order> {
    if history == [] then []
    else
      var n := |history| - 1;
      KeyOrders(history[..n], key) + (if KeyFor(history[n]) == key then [history[n]] else [])
  }

  lemma {:induction false} StreamIsKeyOrders(history: seq<Order>, key: Key)
    ensures |StreamOf(history, key)| == |KeyOrders(history, key)|
    ensures forall i :: 0 <= i < |KeyOrders(history, key)| ==>
              StreamOf(history, key)[i] == Tick(KeyOrders(history, key)[i].timestampNs, [Recent(KeyOrders(history, key)[i])])
  {
    if history != [] {
      StreamIsKeyOrders(history[..|history| - 1], key);
    }
  }

  /** The `i`-th New of the key is `r`, and every later New of the key was within the lookback of it. */
  ghost predicate NeverOutOfReach(cfg: Config, orders: seq<Order>, r: RecentOrder, i: nat) {
    && i < |orders| && Recent(orders[i]) == r
    && forall j :: i < j < |orders| ==> Distance(orders[j].timestampNs, r.timestampNs) <= cfg.lookbackWindowNs
  }

  /** The same, for the tick at position `i` of the key's stream. */
  lemma ReachIsSurvival(cfg: Config, history: seq<Order>, key: Key, r: RecentOrder, i: nat)
    ensures SurvivesFrom(r, i, StreamOf(history, key), TimeOf(), cfg.lookbackWindowNs) <==>
            NeverOutOfReach(cfg, KeyOrders(history, key), r, i)
  {
    var stream, orders := StreamOf(history, key), KeyOrders(history, key);
    StreamIsKeyOrders(history, key);
    hide StreamOf, KeyOrders, Recent;
    if i < |orders| {
      var later := stream[i + 1..];
      assert forall j :: 0 <= j < |later| ==> later[j].now == orders[i + 1 + j].timestampNs;
      assert forall j :: i < j < |orders| ==> orders[j].timestampNs == later[j - i - 1].now;
    }
  }

  /** On any stream, an order is still remembered iff every later New of its key was within the lookback of it. */
  lemma RememberedIff(cfg: Config, history: seq<Order>, key: Key, r: RecentOrder)
    ensures r in Window(cfg, history, key) <==> exists i: nat :: NeverOutOfReach(cfg, KeyOrders(history, key), r, i)
  {
    hide StreamOf, KeyOrders, NeverOutOfReach, SurvivesFrom;
    var stream, w := StreamOf(history, key), cfg.lookbackWindowNs;
    WindowHoldsSurvivors(stream, TimeOf(), w);
    SurvivorsMembers(stream, r, TimeOf(), w);
    assert r in Window(cfg, history, key) <==> exists i: nat :: SurvivesFrom(r, i, stream, TimeOf(), w);
    if i: nat :| SurvivesFrom(r, i, stream, TimeOf(), w) {
      ReachIsSurvival(cfg, history, key, r, i);
    }
    if i: nat :| NeverOutOfReach(cfg, KeyOrders(history, key), r, i) {
      ReachIsSurvival(cfg, history, key, r, i);
    }
  }
}
