/**
 Volume near the close, per group of related accounts. The groups are kept by an incremental
 union-find with path compression; the reference is the component of the relation itself.
 */
module MarkingTheClose {
  import opened Options
  import opened FixTypes
  import opened Accounts
  import opened Alerts
  import opened AccountGroups
  import opened CloseVolumes
  import opened CloseRuns

  class MarkingTheCloseDetector {
    const config: Config
    // The registry every call is given.
    const accounts: Entities
    var totalWindowQty: map<string, int>
    var accountWindowQty: map<Key, int>
    var tradeIdsByKey: map<Key, seq<string>>
    var alerted: set<Key>
    var groupParent: Links
    var allAccountsSeen: set<string>

    // The root of every known account, and a height that falls along every link.
    ghost var rep: Links
    ghost var level: map<string, nat>
    // The executions that fell into their closing window, all calls so far, and the checks made in them.
    ghost var trades: seq<Execution>
    ghost var calls: seq<Call>
    ghost var records: seq<Record>

    ghost predicate GroupsValid()
      reads this`groupParent, this`allAccountsSeen, this`rep, this`level
    {
      Forest(groupParent, rep, level) && Grouped(accounts, allAccountsSeen, rep)
    }

    function TotalOf(instrumentId: string): int
      reads this`totalWindowQty
    {
      if instrumentId in totalWindowQty then totalWindowQty[instrumentId] else 0
    }

    function QtyOf(key: Key): int
      reads this`accountWindowQty
    {
      if key in accountWindowQty then accountWindowQty[key] else 0
    }

    function IdsOf(key: Key): seq<string>
      reads this`tradeIdsByKey
    {
      if key in tradeIdsByKey then tradeIdsByKey[key] else []
    }

    ghost predicate VolumesValid()
      reads this`totalWindowQty, this`accountWindowQty, this`tradeIdsByKey, this`trades
    {
      && (forall i :: TotalOf(i) == TotalQty(trades, i))
      && (forall k :: QtyOf(k) == AccountQty(trades, k))
      && (forall k :: IdsOf(k) == AccountTrades(trades, k))
    }

    /** The fields are those the checks made so far have left behind. */
    ghost predicate Recorded()
      reads this`records, this`alerted, this`allAccountsSeen
    {
      && Chain(config, accounts, records)
      && alerted == TriggeredBy(records) && allAccountsSeen == SeenBy(records)
    }

    /** What holds between the checks of one call as well. */
    ghost predicate Steady()
      reads this`groupParent, this`allAccountsSeen, this`rep, this`level, this`alerted, this`records
      reads this`totalWindowQty, this`accountWindowQty, this`tradeIdsByKey, this`trades
    {
      GroupsValid() && VolumesValid() && Recorded()
    }

    ghost predicate Valid()
      reads this
    {
      && Steady() && trades == WindowTrades(config, calls)
      && Dues(records) == DuesOf(config, calls)
    }

    /** The checks on record are a run over the calls. */
    lemma ValidIsRun()
      requires Valid()
      ensures IsRun(config, accounts, calls, records)
    {
    }

    constructor (config: Config, accounts: Entities)
      ensures Valid() && this.config == config && this.accounts == accounts
      ensures trades == [] && alerted == {} && allAccountsSeen == {} && calls == [] && records == []
    {
      this.config, this.accounts := config, accounts;
      totalWindowQty, accountWindowQty, tradeIdsByKey := map[], map[], map[];
      alerted, groupParent, allAccountsSeen := {}, map[], {};
      rep, level, trades := map[], map[], [];
      calls, records := [], [];
    }

    // ------------------------------------------------------------- grouping

    /** Follows parents to the root and points every account on the way straight at it. */
    method FindGroup(a: string) returns (root: string)
      requires Forest(groupParent, rep, level)
      modifies this`groupParent
      ensures Forest(groupParent, rep, level) && groupParent.Keys == old(groupParent.Keys)
      ensures root == if a in rep then rep[a] else a
      decreases if a in level then level[a] else 0
    {
      assert a in groupParent ==> LinkedWell(groupParent, rep, level, a);
      hide LinkedWell;
      if a !in groupParent || groupParent[a] == a {
        return a;
      }
      root := FindGroup(groupParent[a]);
      Compress(groupParent, rep, level, a);
      groupParent := groupParent[a := root];
    }

    /** Joins the groups of two related accounts. */
    method Unite(a: string, other: string, ghost nodes: set<string>)
      requires Forest(groupParent, rep, level) && rep.Keys == nodes && RootsConnected(accounts, nodes, rep)
      requires a in nodes && other in nodes && IsRelated(accounts, a, other)
      modifies this`groupParent, this`rep, this`level
      ensures Forest(groupParent, rep, level) && rep.Keys == nodes && RootsConnected(accounts, nodes, rep)
      ensures rep[a] == rep[other]
      ensures forall x, y :: x in nodes && y in nodes && old(rep)[x] == old(rep)[y] ==> rep[x] == rep[y]
    {
      hide Connected, IsRelated;
      var rootA := FindGroup(a);
      var rootB := FindGroup(other);
      assert LinkedWell(groupParent, rep, level, a) && LinkedWell(groupParent, rep, level, other);
      if rootA != rootB {
        MergeRoots(groupParent, rep, level, rootA, rootB);
        MergeKeepsConnected(accounts, nodes, rep, a, other);
        groupParent := groupParent[rootA := rootB];
        level := Raised(rep, level, rootA, level[rootB]);
        rep := Merged(rep, rootA, rootB);
      }
    }

    /** `b` has been compared with the new account `a`. */
    ghost predicate Settled(a: string, b: string)
      reads this
    {
      a in rep && b in rep && (IsRelated(accounts, a, b) ==> rep[a] == rep[b])
    }

    /** The loop over all accounts seen before. */
    method UniteWithRelated(a: string, ghost nodes: set<string>)
      requires Forest(groupParent, rep, level) && rep.Keys == nodes && RootsConnected(accounts, nodes, rep)
      requires nodes == allAccountsSeen + {a} && RelatedTogether(accounts, allAccountsSeen, rep)
      modifies this`groupParent, this`rep, this`level
      ensures Forest(groupParent, rep, level) && rep.Keys == nodes && RootsConnected(accounts, nodes, rep)
      ensures RelatedTogether(accounts, allAccountsSeen, rep)
      ensures forall b :: b in allAccountsSeen ==> Settled(a, b)
    {
      hide Forest, LinkedWell, RootsConnected, IsRelated;
      var rest := allAccountsSeen;
      while rest != {}
        invariant rest <= allAccountsSeen
        invariant Forest(groupParent, rep, level) && rep.Keys == nodes && RootsConnected(accounts, nodes, rep)
        invariant RelatedTogether(accounts, allAccountsSeen, rep)
        invariant forall b :: b in allAccountsSeen && b !in rest ==> Settled(a, b)
        decreases rest
      {
        var other :| other in rest;
        if IsRelated(accounts, a, other) {
          Unite(a, other, nodes);
        }
        rest := rest - {other};
      }
    }

    /** A new account starts alone and is united with every related account seen before. */
    method RegisterAndGroup(a: string)
      requires GroupsValid()
      modifies this`groupParent, this`allAccountsSeen, this`rep, this`level
      ensures GroupsValid() && allAccountsSeen == old(allAccountsSeen) + {a}
    {
      hide LinkedWell, Connected, IsRelated;
      if a in allAccountsSeen {
        return;
      }
      ghost var nodes := allAccountsSeen + {a};
      AddSingleton(groupParent, rep, level, a);
      SingletonConnected(a, nodes);
      groupParent := groupParent[a := a];
      rep, level := rep[a := a], level[a := 0];
      UniteWithRelated(a, nodes);
      allAccountsSeen := allAccountsSeen + {a};
      NewcomerTogether(a);
    }

    lemma NewcomerTogether(a: string)
      requires a in allAccountsSeen && RelatedTogether(accounts, allAccountsSeen - {a}, rep)
      requires forall b :: b in allAccountsSeen - {a} ==> Settled(a, b)
      ensures RelatedTogether(accounts, allAccountsSeen, rep)
    {
      forall x, y | x in allAccountsSeen && y in allAccountsSeen && x in rep && y in rep && IsRelated(accounts, x, y)
        ensures rep[x] == rep[y]
      {
        RelatedSymmetric(accounts, x, y);
        hide IsRelated;
        assert x == a && y != a ==> Settled(a, y);
        assert y == a && x != a ==> Settled(a, x);
      }
    }

    lemma SingletonConnected(a: string, nodes: set<string>)
      requires Grouped(accounts, allAccountsSeen, rep) && nodes == allAccountsSeen + {a} && a !in allAccountsSeen
      ensures RootsConnected(accounts, nodes, rep[a := a])
    {
      RelatedConnected(accounts, nodes, a, a);
      forall x | x in rep
        ensures Connected(accounts, nodes, x, rep[x])
      {
        ConnectedGrows(accounts, allAccountsSeen, nodes, x, rep[x]);
      }
    }

    /** Exactly the component of `a`, each account once, in no particular order. */
    method GroupMembers(a: string) returns (members: seq<string>)
      requires GroupsValid() && a in allAccountsSeen
      modifies this`groupParent
      ensures GroupsValid()
      ensures NoDuplicates(members) && Members(members) == Component(accounts, allAccountsSeen, a)
    {
      hide Forest, Grouped, Component, LinkedWell;
      ComponentIsRootClass(accounts, allAccountsSeen, rep, a);
      KnownAccounts();
      var root := FindGroup(a);
      members := [];
      var rest := allAccountsSeen;
      while rest != {}
        invariant rest <= allAccountsSeen
        invariant Forest(groupParent, rep, level)
        invariant NoDuplicates(members)
        invariant forall b :: b in members <==> b in allAccountsSeen && b !in rest && rep[b] == rep[a]
        decreases rest
      {
        var acc :| acc in rest;
        var r := FindGroup(acc);
        if r == root {
          members := members + [acc];
        }
        rest := rest - {acc};
      }
    }

    lemma KnownAccounts()
      requires GroupsValid()
      ensures rep.Keys == allAccountsSeen
    {
    }

    // --------------------------------------------------------------- checks

    /** The loop that adds up the members' volumes and collects their trade ids. */
    method SumGroup(instrumentId: string, members: seq<string>) returns (qty: int, ids: seq<string>)
      requires VolumesValid() && NoDuplicates(members)
      ensures qty == GroupQty(trades, instrumentId, Members(members))
      ensures multiset(ids) == GroupTrades(trades, instrumentId, Members(members))
    {
      hide GroupQty, GroupTrades, AccountQty, AccountTrades;
      NobodyTrades(trades, instrumentId);
      qty, ids := 0, [];
      assert Members(members[..0]) == {};
      for i := 0 to |members|
        invariant qty == GroupQty(trades, instrumentId, Members(members[..i]))
        invariant multiset(ids) == GroupTrades(trades, instrumentId, Members(members[..i]))
      {
        var key := Key(instrumentId, members[i]);
        OneMoreMember(trades, instrumentId, Members(members[..i]), members[i]);
        assert Members(members[..i + 1]) == Members(members[..i]) + {members[i]};
        qty := qty + QtyOf(key);
        ids := ids + IdsOf(key);
      }
      assert members[..|members|] == members;
    }

    method SomeAlerted(instrumentId: string, members: seq<string>) returns (found: bool)
      ensures found <==> exists m :: m in Members(members) && Key(instrumentId, m) in alerted
    {
      for i := 0 to |members|
        invariant forall j :: 0 <= j < i ==> Key(instrumentId, members[j]) !in alerted
      {
        if Key(instrumentId, members[i]) in alerted {
          assert members[i] in Members(members);
          return true;
        }
      }
      return false;
    }

    /** Finds the account's group and decides whether it alerts. */
    method Judge(x: Execution, a: string, sequence: nat) returns (alert: Option<Alert>)
      requires GroupsValid() && VolumesValid()
      requires x.instrumentId in config.closeTimeNs
      modifies this`groupParent, this`allAccountsSeen, this`rep, this`level, this`alerted
      ensures GroupsValid() && VolumesValid() && allAccountsSeen == old(allAccountsSeen) + {a}
      ensures Judged(config, accounts, Check(x, a, sequence), trades, allAccountsSeen, old(alerted), alert, alerted)
    {
      hide GroupQty, GroupTrades, AccountQty, AccountTrades, TotalQty, Component, Forest, Grouped;
      RegisterAndGroup(a);
      var members := GroupMembers(a);
      var blocked := SomeAlerted(x.instrumentId, members);
      if blocked {
        return None;
      }
      var groupQty, ids := SumGroup(x.instrumentId, members);
      var totalQty := TotalOf(x.instrumentId);
      if groupQty < config.minAccountQtyThreshold || totalQty < config.minTotalWindowQtyThreshold {
        return None;
      }
      if !ClearsShare(config, groupQty, totalQty) {
        return None;
      }
      alerted := alerted + {Key(x.instrumentId, a)};
      alert := Some(Alert("MarkingTheCloseDetector", ScoreOf(groupQty, totalQty), x.instrumentId, members, ids,
                          config.closeTimeNs[x.instrumentId] - config.windowDurationNs, x.timestampNs, sequence));
    }

    method CheckAccount(x: Execution, a: string, sequence: nat) returns (alert: Option<Alert>)
      requires Steady() && x.instrumentId in config.closeTimeNs
      modifies this`groupParent, this`allAccountsSeen, this`rep, this`level, this`alerted, this`records
      ensures Steady() && allAccountsSeen == old(allAccountsSeen) + {a}
      ensures Judged(config, accounts, Check(x, a, sequence), trades, allAccountsSeen, old(alerted), alert, alerted)
      ensures records == old(records) + [Record(Due(Check(x, a, sequence), trades), allAccountsSeen, old(alerted), alert, alerted)]
    {
      hide GroupsValid, VolumesValid, Judged, Chain;
      alert := Judge(x, a, sequence);
      ghost var r := Record(Due(Check(x, a, sequence), trades), allAccountsSeen, old(alerted), alert, alerted);
      ChainExtends(config, accounts, records, r);
      records := records + [r];
    }

    // ------------------------------------------------------------ executions

    /** Credits the trade to the instrument and to each distinct party. */
    method Credit(x: Execution)
      requires Steady()
      modifies this`totalWindowQty, this`accountWindowQty, this`tradeIdsByKey, this`trades
      ensures Steady() && trades == old(trades) + [x]
    {
      hide GroupsValid, Recorded, TotalQty, AccountQty, AccountTrades, Touches;
      OneMoreTrade(trades, x);
      CreditParties(x);
      totalWindowQty := totalWindowQty[x.instrumentId := TotalOf(x.instrumentId) + x.qty];
      trades := trades + [x];
    }

    method CreditParties(x: Execution)
      modifies this`accountWindowQty, this`tradeIdsByKey
      ensures forall k :: QtyOf(k) == old(QtyOf(k)) + (if Touches(x, k) then x.qty else 0)
      ensures forall k :: IdsOf(k) == old(IdsOf(k)) + (if Touches(x, k) then [x.tradeId] else [])
    {
      CreditOne(Key(x.instrumentId, x.accountId), x);
      if HasCounterparty(x) {
        CreditOne(Key(x.instrumentId, x.counterpartyAccountId), x);
      }
    }

    method CreditOne(key: Key, x: Execution)
      modifies this`accountWindowQty, this`tradeIdsByKey
      ensures forall k :: QtyOf(k) == old(QtyOf(k)) + (if k == key then x.qty else 0)
      ensures forall k :: IdsOf(k) == old(IdsOf(k)) + (if k == key then [x.tradeId] else [])
    {
      accountWindowQty := accountWindowQty[key := QtyOf(key) + x.qty];
      tradeIdsByKey := tradeIdsByKey[key := IdsOf(key) + [x.tradeId]];
    }

    /**
     Outside the closing window nothing happens. Inside it the trade is credited, then its account and
     after it a distinct counterparty are checked, each seeing what the other's check left behind.
     Whatever has been handled, the checks on record are a run over all calls so far.
     */
    method HandleExecution(x: Execution, sequence: nat)
      returns (alerts: seq<Alert>, ghost first: Option<Alert>, ghost second: Option<Alert>, ghost between: set<Key>)
      requires Valid()
      modifies this
      ensures Valid() && alerts == Listed(first) + Listed(second)
      ensures calls == old(calls) + [Call(x, sequence)]
      ensures old(records) <= records && alerts == AlertsIn(records[|old(records)|..])
      ensures !InWindow(config, x) ==>
                first == None && second == None && trades == old(trades) && alerted == old(alerted)
                && allAccountsSeen == old(allAccountsSeen)
      ensures InWindow(config, x) ==>
                && trades == old(trades) + [x]
                && Judged(config, accounts, Check(x, x.accountId, sequence), trades,
                          old(allAccountsSeen) + {x.accountId}, old(alerted), first, between)
      ensures InWindow(config, x) && HasCounterparty(x) ==>
                && allAccountsSeen == old(allAccountsSeen) + {x.accountId, x.counterpartyAccountId}
                && Judged(config, accounts, Check(x, x.counterpartyAccountId, sequence), trades, allAccountsSeen,
                          between, second, alerted)
      ensures InWindow(config, x) && !HasCounterparty(x) ==>
                second == None && alerted == between && allAccountsSeen == old(allAccountsSeen) + {x.accountId}
    {
      hide Steady, Judged, AlertsIn, Dues, WindowTrades, DuesOf, NewDues;
      HistoryGrows(config, calls, Call(x, sequence));
      first, second, between := None, None, alerted;
      alerts := [];
      calls := calls + [Call(x, sequence)];
      if !InWindow(config, x) {
        NoNewAlerts(records);
        return;
      }
      Credit(x);
      alerts, first, second, between := CheckParties(x, sequence);
    }

    /** The checks of one trade, once it has been credited. */
    method CheckParties(x: Execution, sequence: nat)
      returns (alerts: seq<Alert>, ghost first: Option<Alert>, ghost second: Option<Alert>, ghost between: set<Key>)
      requires Steady() && InWindow(config, x)
      modifies this`groupParent, this`allAccountsSeen, this`rep, this`level, this`alerted, this`records
      ensures Steady() && alerts == Listed(first) + Listed(second)
      ensures old(records) <= records && alerts == AlertsIn(records[|old(records)|..])
      ensures Dues(records) == Dues(old(records)) + NewDues(config, Call(x, sequence), trades)
      ensures Judged(config, accounts, Check(x, x.accountId, sequence), trades,
                     old(allAccountsSeen) + {x.accountId}, old(alerted), first, between)
      ensures HasCounterparty(x) ==>
                && allAccountsSeen == old(allAccountsSeen) + {x.accountId, x.counterpartyAccountId}
                && Judged(config, accounts, Check(x, x.counterpartyAccountId, sequence), trades, allAccountsSeen,
                          between, second, alerted)
      ensures !HasCounterparty(x) ==>
                second == None && alerted == between && allAccountsSeen == old(allAccountsSeen) + {x.accountId}
    {
      hide Steady, Judged, AlertsIn;
      second := None;
      ghost var n := |records|;
      var one := CheckAccount(x, x.accountId, sequence);
      first, between := one, alerted;
      alerts := Listed(one);
      AlertsOfOne(records[n]);
      assert records[n..] == [records[n]];
      if HasCounterparty(x) {
        var two := CheckAccount(x, x.counterpartyAccountId, sequence);
        second := two;
        alerts := alerts + Listed(two);
        AlertsOfTwo(records[n], records[n + 1]);
        assert records[n..] == [records[n], records[n + 1]];
        assert old(allAccountsSeen) + {x.accountId} + {x.counterpartyAccountId}
               == old(allAccountsSeen) + {x.accountId, x.counterpartyAccountId};
      }
    }
  }

  function Listed(alert: Option<Alert>): seq<Alert> {
    if alert.Some? then [alert.value] else []
  }

  lemma AlertsOfOne(r: Record)
    ensures AlertsIn([r]) == Listed(r.alert)
  {
    assert [r][..0] == [];
  }

  lemma AlertsOfTwo(r: Record, q: Record)
    ensures AlertsIn([r, q]) == Listed(r.alert) + Listed(q.alert)
  {
    assert [r, q][..1] == [r];
    AlertsOfOne(r);
  }

  lemma NoNewAlerts(records: seq<Record>)
    ensures AlertsIn(records[|records|..]) == []
  {
  }

  lemma HistoryGrows(cfg: Config, calls: seq<Call>, c: Call)
    ensures WindowTrades(cfg, calls + [c]) == WindowTrades(cfg, calls) + (if InWindow(cfg, c.trade) then [c.trade] else [])
    ensures DuesOf(cfg, calls + [c]) == DuesOf(cfg, calls) + NewDues(cfg, c, WindowTrades(cfg, calls + [c]))
    ensures !InWindow(cfg, c.trade) ==> DuesOf(cfg, calls + [c]) == DuesOf(cfg, calls)
  {
    assert (calls + [c])[..|calls|] == calls;
    assert DuesOf(cfg, calls) + [] == DuesOf(cfg, calls);
  }
}
