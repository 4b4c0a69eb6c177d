/**
 The checks the marking-the-close detector makes over a list of executions. A run lists every check
 that falls due, with what it found; which alert a check raises is fixed but for the order in which the
 alert names the members of a group.
 */
module CloseRuns {
  import opened Options
  import opened FixTypes
  import opened Accounts
  import opened Alerts
  import opened AccountGroups
  import opened CloseVolumes

  /** One account's check on the occasion of a trade. */
  datatype Check = Check(trade: Execution, accountId: string, sequence: nat) {
    function Key(): Key {
      CloseVolumes.Key(trade.instrumentId, accountId)
    }
  }

  /**
   The outcome of a check, by the component of the account among all accounts seen so far: an alert
   fires if and only if no member has triggered before and the component's volume clears every bar.
   */
  ghost predicate Judged(cfg: Config, accounts: Entities, c: Check, trades: seq<Execution>, seen: set<string>,
                         before: set<Key>, alert: Option<Alert>, after: set<Key>) {
    var group := Component(accounts, seen, c.accountId);
    && c.trade.instrumentId in cfg.closeTimeNs
    && (alert.Some? <==> Fires(cfg, before, trades, c.trade.instrumentId, group))
    && (alert.Some? ==> Describes(cfg, alert.value, trades, c.trade, group, c.sequence))
    && after == before + (if alert.Some? then {c.Key()} else {})
  }

  /** An alert's score is the group's share of the window, which cannot exceed one. */
  lemma ScoreIsCappedShare(cfg: Config, accounts: Entities, c: Check, trades: seq<Execution>, seen: set<string>,
                           before: set<Key>, alert: Option<Alert>, after: set<Key>)
    requires Judged(cfg, accounts, c, trades, seen, before, alert, after) && alert.Some?
    requires forall i :: 0 <= i < |trades| ==> trades[i].qty >= 0
    ensures var group := Component(accounts, seen, c.accountId);
            var groupQty, totalQty := GroupQty(trades, c.trade.instrumentId, group), TotalQty(trades, c.trade.instrumentId);
            && 0.0 <= alert.value.score <= 1.0 && totalQty >= cfg.minTotalWindowQtyThreshold
            && (totalQty != 0 && groupQty <= totalQty ==> alert.value.score == Share(groupQty, totalQty))
  {
    hide Share, Component, GroupQty, TotalQty;
    var group := Component(accounts, seen, c.accountId);
    GroupAtMostTwiceTotal(trades, c.trade.instrumentId, group);
    var totalQty := TotalQty(trades, c.trade.instrumentId);
    if totalQty != 0 {
      ShareBounds(GroupQty(trades, c.trade.instrumentId, group), totalQty);
    }
  }

  lemma ShareBounds(groupQty: int, totalQty: int)
    requires 0 <= groupQty && totalQty > 0
    ensures 0.0 <= Share(groupQty, totalQty)
    ensures groupQty <= totalQty ==> Share(groupQty, totalQty) <= 1.0
  {
  }

  // --------------------------------------------------------------------- runs

  /** A call of the detector. */
  datatype Call = Call(trade: Execution, sequence: nat)

  /** The executions that fell into their closing window. */
  function WindowTrades(cfg: Config, calls: seq<Call>): seq<Execution> {
    if calls == [] then []
    else
      var x := calls[|calls| - 1].trade;
      WindowTrades(cfg, calls[..|calls| - 1]) + (if InWindow(cfg, x) then [x] else [])
  }

  /** A check that falls due, and the trades credited by then. */
  datatype Due = Due(check: Check, trades: seq<Execution>)

  function NewDues(cfg: Config, c: Call, trades: seq<Execution>): seq<Due> {
    if !InWindow(cfg, c.trade) then []
    else
      [Due(Check(c.trade, c.trade.accountId, c.sequence), trades)]
      + (if HasCounterparty(c.trade) then [Due(Check(c.trade, c.trade.counterpartyAccountId, c.sequence), trades)] else [])
  }

  /** Every check that falls due over a list of calls, in order. */
  function DuesOf(cfg: Config, calls: seq<Call>): seq<Due> {
    if calls == [] then []
    else
      DuesOf(cfg, calls[..|calls| - 1]) + NewDues(cfg, calls[|calls| - 1], WindowTrades(cfg, calls))
  }

  /** A check with the accounts seen by then, the accounts that had triggered, and what it found. */
  datatype Record = Record(due: Due, seen: set<string>, before: set<Key>, alert: Option<Alert>, after: set<Key>)

  function SeenBy(records: seq<Record>): set<string> {
    if records == [] then {} else records[|records| - 1].seen
  }

  function TriggeredBy(records: seq<Record>): set<Key> {
    if records == [] then {} else records[|records| - 1].after
  }

  /** Each check starts from what the one before it left behind. */
  ghost predicate Chain(cfg: Config, accounts: Entities, records: seq<Record>) {
    forall k :: 0 <= k < |records| ==> Follows(cfg, accounts, records[..k], records[k])
  }

  ghost predicate Follows(cfg: Config, accounts: Entities, prior: seq<Record>, r: Record) {
    && r.before == TriggeredBy(prior) && r.seen == SeenBy(prior) + {r.due.check.accountId}
    && Judged(cfg, accounts, r.due.check, r.due.trades, r.seen, r.before, r.alert, r.after)
  }

  function Dues(records: seq<Record>): seq<Due> {
    seq(|records|, k requires 0 <= k < |records| => records[k].due)
  }

  /** `records` are the checks made over `calls`, from a fresh detector on. */
  ghost predicate IsRun(cfg: Config, accounts: Entities, calls: seq<Call>, records: seq<Record>) {
    Chain(cfg, accounts, records) && Dues(records) == DuesOf(cfg, calls)
  }

  function AlertsIn(records: seq<Record>): seq<Alert> {
    if records == [] then []
    else
      var last := records[|records| - 1];
      AlertsIn(records[..|records| - 1]) + (if last.alert.Some? then [last.alert.value] else [])
  }

  lemma ChainExtends(cfg: Config, accounts: Entities, records: seq<Record>, r: Record)
    requires Chain(cfg, accounts, records) && Follows(cfg, accounts, records, r)
    ensures Chain(cfg, accounts, records + [r])
  {
    hide Follows;
    var all := records + [r];
    forall k | 0 <= k < |all|
      ensures Follows(cfg, accounts, all[..k], all[k])
    {
      assert k < |records| ==> all[..k] == records[..k];
      assert k == |records| ==> all[..k] == records;
    }
  }

  /** Nothing that has triggered or been seen is ever forgotten. */
  lemma {:induction false} ChainGrows(cfg: Config, accounts: Entities, records: seq<Record>, i: nat, j: nat)
    requires Chain(cfg, accounts, records) && i <= j < |records|
    ensures records[i].after <= records[j].after && records[i].seen <= records[j].seen
    ensures i < j ==> records[i].after <= records[j].before
  {
    hide Follows;
    if i < j {
      ChainGrows(cfg, accounts, records, i, j - 1);
    }
    FollowsGrows(cfg, accounts, records[..j], records[j]);
    assert j > 0 ==> records[..j][|records[..j]| - 1] == records[j - 1];
  }

  lemma FollowsGrows(cfg: Config, accounts: Entities, prior: seq<Record>, r: Record)
    requires Follows(cfg, accounts, prior, r)
    ensures r.before == TriggeredBy(prior) && r.before <= r.after && SeenBy(prior) <= r.seen
  {
  }

  /** The accounts a list of checks is about. */
  function Checked(dues: seq<Due>): set<string> {
    set i | 0 <= i < |dues| :: dues[i].check.accountId
  }

  lemma CheckedOneMore(dues: seq<Due>, d: Due)
    ensures Checked(dues + [d]) == Checked(dues) + {d.check.accountId}
  {
    var all := dues + [d];
    assert all[|dues|] == d && forall i :: 0 <= i < |dues| ==> all[i] == dues[i];
  }

  /** The accounts seen at a check are those of the checks due up to it. */
  lemma {:induction false} SeenAreChecked(cfg: Config, accounts: Entities, records: seq<Record>, k: nat)
    requires Chain(cfg, accounts, records) && k <= |records|
    ensures SeenBy(records[..k]) == Checked(Dues(records)[..k])
  {
    hide Judged;
    if k > 0 {
      var prior, r := records[..k - 1], records[k - 1];
      SeenAreChecked(cfg, accounts, records, k - 1);
      assert Follows(cfg, accounts, prior, r);
      CheckedOneMore(Dues(records)[..k - 1], r.due);
      assert Dues(records)[..k] == Dues(records)[..k - 1] + [r.due];
    }
  }

  /** The accounts that have triggered are exactly those whose own check raised an alert. */
  lemma {:induction false} TriggeredAreAlerted(cfg: Config, accounts: Entities, records: seq<Record>, k: nat)
    requires Chain(cfg, accounts, records) && k <= |records|
    ensures forall key :: key in TriggeredBy(records[..k]) <==> RaisedBy(records[..k], key)
  {
    if k > 0 {
      var prior, r := records[..k - 1], records[k - 1];
      TriggeredAreAlerted(cfg, accounts, records, k - 1);
      assert Follows(cfg, accounts, prior, r);
      assert records[..k] == prior + [r];
      forall key
        ensures RaisedBy(prior + [r], key) <==> RaisedBy(prior, key) || (r.alert.Some? && r.due.check.Key() == key)
      {
        RaisedOneMore(prior, r, key);
      }
    }
  }

  ghost predicate RaisedBy(records: seq<Record>, key: Key) {
    exists i :: 0 <= i < |records| && records[i].alert.Some? && records[i].due.check.Key() == key
  }

  lemma RaisedOneMore(prior: seq<Record>, r: Record, key: Key)
    ensures RaisedBy(prior + [r], key) <==> RaisedBy(prior, key) || (r.alert.Some? && r.due.check.Key() == key)
  {
    var all := prior + [r];
    assert all[|prior|] == r;
    assert forall i :: 0 <= i < |prior| ==> all[i] == prior[i];
  }

  /**
   Once an account has triggered, no later check of an account connected to it by then alerts for that
   instrument, whatever accounts, trades and merges come in between.
   */
  lemma TriggeredGroupStaysSilent(cfg: Config, accounts: Entities, records: seq<Record>, i: nat, j: nat)
    requires Chain(cfg, accounts, records) && i < j < |records|
    requires records[i].alert.Some?
    requires records[i].due.check.trade.instrumentId == records[j].due.check.trade.instrumentId
    requires Connected(accounts, records[j].seen, records[i].due.check.accountId, records[j].due.check.accountId)
    ensures records[j].alert == None && records[j].after == records[j].before
  {
    var a, r := records[i].due.check, records[j];
    ChainGrows(cfg, accounts, records, i, j);
    assert Follows(cfg, accounts, records[..i], records[i]) && Follows(cfg, accounts, records[..j], r);
    assert a.Key() in r.before;
    ConnectedSymmetric(accounts, r.seen, a.accountId, r.due.check.accountId);
    assert a.accountId in r.seen;
    assert a.accountId in Component(accounts, r.seen, r.due.check.accountId);
  }

  /**
   Over any list of executions: two alerts for one instrument always come from accounts that were not
   connected, among the accounts checked so far, when the later one was raised.
   */
  lemma OneAlertPerGroup(cfg: Config, accounts: Entities, calls: seq<Call>, records: seq<Record>, i: nat, j: nat)
    requires IsRun(cfg, accounts, calls, records) && i < j < |records|
    requires records[i].alert.Some? && records[j].alert.Some?
    requires records[i].due.check.trade.instrumentId == records[j].due.check.trade.instrumentId
    ensures j < |DuesOf(cfg, calls)|
    ensures var dues := DuesOf(cfg, calls);
            !Connected(accounts, Checked(dues[..j + 1]), dues[i].check.accountId, dues[j].check.accountId)
  {
    hide Checked, Connected, Chain, DuesOf;
    SeenAreChecked(cfg, accounts, records, j + 1);
    assert SeenBy(records[..j + 1]) == records[j].seen;
    assert Dues(records)[i] == records[i].due && Dues(records)[j] == records[j].due;
    if Connected(accounts, records[j].seen, records[i].due.check.accountId, records[j].due.check.accountId) {
      TriggeredGroupStaysSilent(cfg, accounts, records, i, j);
    }
  }
}
