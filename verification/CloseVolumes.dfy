/** Closing-window volume as sums over the trades of the window. */
module CloseVolumes {
  import opened FixTypes
  import opened Alerts

  datatype Config = Config(
    closeTimeNs: map<string, int>, windowDurationNs: int, concentrationThreshold: real,
    minAccountQtyThreshold: int, minTotalWindowQtyThreshold: int)

  datatype Key = Key(instrumentId: string, accountId: string)

  predicate InWindow(cfg: Config, x: Execution) {
    && x.instrumentId in cfg.closeTimeNs
    && cfg.closeTimeNs[x.instrumentId] - cfg.windowDurationNs <= x.timestampNs <= cfg.closeTimeNs[x.instrumentId]
  }

  /** The trade has a named counterparty that is not the account itself. */
  predicate HasCounterparty(x: Execution) {
    x.counterpartyAccountId != "" && x.counterpartyAccountId != x.accountId
  }

  predicate Touches(x: Execution, key: Key) {
    && x.instrumentId == key.instrumentId
    && (key.accountId == x.accountId || (HasCounterparty(x) && key.accountId == x.counterpartyAccountId))
  }

  function TotalQty(trades: seq<Execution>, instrumentId: string): int {
    if trades == [] then 0
    else
      var x := trades[|trades| - 1];
      TotalQty(trades[..|trades| - 1], instrumentId) + (if x.instrumentId == instrumentId then x.qty else 0)
  }

  function AccountQty(trades: seq<Execution>, key: Key): int {
    if trades == [] then 0
    else
      var x := trades[|trades| - 1];
      AccountQty(trades[..|trades| - 1], key) + (if Touches(x, key) then x.qty else 0)
  }

  function AccountTrades(trades: seq<Execution>, key: Key): seq<string> {
    if trades == [] then []
    else
      var x := trades[|trades| - 1];
      AccountTrades(trades[..|trades| - 1], key) + (if Touches(x, key) then [x.tradeId] else [])
  }

  // ---------------------------------------------------- a group, trade by trade

  /** How many of the distinct parties to the trade belong to the group. */
  function PartiesIn(x: Execution, group: set<string>): nat {
    (if x.accountId in group then 1 else 0)
    + (if HasCounterparty(x) && x.counterpartyAccountId in group then 1 else 0)
  }

  /** Volume touching one member counts once, volume between two distinct members twice. */
  function GroupQty(trades: seq<Execution>, instrumentId: string, group: set<string>): int {
    if trades == [] then 0
    else
      var x := trades[|trades| - 1];
      GroupQty(trades[..|trades| - 1], instrumentId, group)
      + (if x.instrumentId == instrumentId then Volume(x, PartiesIn(x, group)) else 0)
  }

  function Volume(x: Execution, parties: nat): int {
    match parties case 0 => 0 case 1 => x.qty case _ => 2 * x.qty
  }

  function Mentions(x: Execution, parties: nat): multiset<string> {
    match parties case 0 => multiset{} case 1 => multiset{x.tradeId} case _ => multiset{x.tradeId, x.tradeId}
  }

  /** The same multiplicities, as trade ids. */
  function GroupTrades(trades: seq<Execution>, instrumentId: string, group: set<string>): multiset<string> {
    if trades == [] then multiset{}
    else
      var x := trades[|trades| - 1];
      GroupTrades(trades[..|trades| - 1], instrumentId, group)
      + (if x.instrumentId == instrumentId then Mentions(x, PartiesIn(x, group)) else multiset{})
  }

  lemma {:induction false} NobodyTrades(trades: seq<Execution>, instrumentId: string)
    ensures GroupQty(trades, instrumentId, {}) == 0 && GroupTrades(trades, instrumentId, {}) == multiset{}
  {
    if trades != [] {
      NobodyTrades(trades[..|trades| - 1], instrumentId);
    }
  }

  lemma OneMoreParty(x: Execution, group: set<string>, m: string)
    requires m !in group
    ensures var touched := if Touches(x, Key(x.instrumentId, m)) then 1 else 0;
            && PartiesIn(x, group + {m}) == PartiesIn(x, group) + touched
            && Volume(x, PartiesIn(x, group + {m})) == Volume(x, PartiesIn(x, group)) + Volume(x, touched)
            && Mentions(x, PartiesIn(x, group + {m})) == Mentions(x, PartiesIn(x, group)) + Mentions(x, touched)
  {
  }

  /** Adding one more member to a group adds exactly that account's own volume and trades. */
  lemma {:induction false} OneMoreMember(trades: seq<Execution>, instrumentId: string, group: set<string>, m: string)
    requires m !in group
    ensures GroupQty(trades, instrumentId, group + {m})
            == GroupQty(trades, instrumentId, group) + AccountQty(trades, Key(instrumentId, m))
    ensures GroupTrades(trades, instrumentId, group + {m})
            == GroupTrades(trades, instrumentId, group) + multiset(AccountTrades(trades, Key(instrumentId, m)))
  {
    if trades != [] {
      var init, x, key := trades[..|trades| - 1], trades[|trades| - 1], Key(instrumentId, m);
      OneMoreMember(init, instrumentId, group, m);
      OneMoreParty(x, group, m);
      hide PartiesIn;
      var own := AccountTrades(init, key);
      assert multiset(own + [x.tradeId]) == multiset(own) + multiset{x.tradeId};
      assert own + [] == own;
    }
  }

  /** With non-negative quantities a group's volume is at most twice the total. */
  lemma {:induction false} GroupAtMostTwiceTotal(trades: seq<Execution>, instrumentId: string, group: set<string>)
    requires forall i :: 0 <= i < |trades| ==> trades[i].qty >= 0
    ensures 0 <= GroupQty(trades, instrumentId, group) <= 2 * TotalQty(trades, instrumentId)
  {
    if trades != [] {
      GroupAtMostTwiceTotal(trades[..|trades| - 1], instrumentId, group);
    }
  }

  lemma OneMoreTrade(trades: seq<Execution>, x: Execution)
    ensures forall i :: TotalQty(trades + [x], i) == TotalQty(trades, i) + (if x.instrumentId == i then x.qty else 0)
    ensures forall k :: AccountQty(trades + [x], k) == AccountQty(trades, k) + (if Touches(x, k) then x.qty else 0)
    ensures forall k :: AccountTrades(trades + [x], k) == AccountTrades(trades, k) + (if Touches(x, k) then [x.tradeId] else [])
  {
    assert (trades + [x])[..|trades|] == trades;
  }

  // ------------------------------------------------------------------ verdicts

  function Share(groupQty: int, totalQty: int): real
    requires totalQty != 0
  {
    groupQty as real / totalQty as real
  }

  /**
   The share clears its bar. A total of zero, which gets here only when no positive total is asked for,
   makes the quotient infinite or not a number; only a negative infinity is below the bar.
   */
  predicate ClearsShare(cfg: Config, groupQty: int, totalQty: int) {
    if totalQty == 0 then groupQty >= 0 else Share(groupQty, totalQty) >= cfg.concentrationThreshold
  }

  function ScoreOf(groupQty: int, totalQty: int): real {
    if totalQty == 0 || Share(groupQty, totalQty) >= 1.0 then 1.0 else Share(groupQty, totalQty)
  }

  /** The whole condition for an alert: nobody in the group has triggered yet, and all three bars are cleared. */
  ghost predicate Fires(cfg: Config, alerted: set<Key>, trades: seq<Execution>, instrumentId: string, group: set<string>) {
    var groupQty, totalQty := GroupQty(trades, instrumentId, group), TotalQty(trades, instrumentId);
    && (forall m :: m in group ==> Key(instrumentId, m) !in alerted)
    && groupQty >= cfg.minAccountQtyThreshold
    && totalQty >= cfg.minTotalWindowQtyThreshold
    && ClearsShare(cfg, groupQty, totalQty)
  }

  ghost predicate NoDuplicates(s: seq<string>) {
    forall i, j :: 0 <= i < j < |s| ==> s[i] != s[j]
  }

  function Members(s: seq<string>): set<string> {
    set m | m in s
  }

  /** What an alert for the group says, apart from who triggered it. */
  ghost predicate Describes(cfg: Config, a: Alert, trades: seq<Execution>, x: Execution, group: set<string>, sequence: nat)
    requires x.instrumentId in cfg.closeTimeNs
  {
    && a.detectorName == "MarkingTheCloseDetector" && a.instrumentId == x.instrumentId
    && a.score == ScoreOf(GroupQty(trades, x.instrumentId, group), TotalQty(trades, x.instrumentId))
    && NoDuplicates(a.accountIds) && Members(a.accountIds) == group
    && multiset(a.orderIds) == GroupTrades(trades, x.instrumentId, group)
    && a.windowStartNs == cfg.closeTimeNs[x.instrumentId] - cfg.windowDurationNs && a.windowEndNs == x.timestampNs
    && a.bookSnapshotSequence == sequence
  }
}
