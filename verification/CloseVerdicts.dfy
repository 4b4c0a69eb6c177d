/** What a check of the marking-the-close detector decides, in plain quantities and without division. */
module CloseVerdicts {
  import opened Options
  import opened FixTypes
  import opened Accounts
  import opened Alerts
  import opened AccountGroups
  import opened CloseVolumes
  import opened CloseRuns

  /** A party to a trade: its account, or its counterparty if it names another account. */
  predicate IsParty(x: Execution, a: string) {
    a == x.accountId || (a == x.counterpartyAccountId && a != "")
  }

  /** The ids of the parties of a trade, each once. */
  function Parties(x: Execution): set<string> {
    {x.accountId} + (if x.counterpartyAccountId == "" then {} else {x.counterpartyAccountId})
  }

  /** A group's volume, as the sum over trades of the quantity times the number of its members that are parties. */
  function Involved(trades: seq<Execution>, instrumentId: string, group: set<string>): int {
    if trades == [] then 0
    else
      Involved(trades[1..], instrumentId, group)
      + (if trades[0].instrumentId == instrumentId then trades[0].qty * |Parties(trades[0]) * group| else 0)
  }

  function Traded(trades: seq<Execution>, instrumentId: string): int {
    if trades == [] then 0
    else Traded(trades[1..], instrumentId) + (if trades[0].instrumentId == instrumentId then trades[0].qty else 0)
  }

  lemma VolumeIs(x: Execution, parties: nat)
    requires parties <= 2
    ensures Volume(x, parties) == x.qty * parties
  {
  }

  lemma InGroup(a: string, group: set<string>)
    ensures |{a} * group| == if a in group then 1 else 0
  {
    assert {a} * group == if a in group then {a} else {};
  }

  lemma PartiesCounted(x: Execution, group: set<string>)
    ensures PartiesIn(x, group) == |Parties(x) * group|
  {
    InGroup(x.accountId, group);
    if HasCounterparty(x) {
      InGroup(x.counterpartyAccountId, group);
      assert Parties(x) * group == {x.accountId} * group + {x.counterpartyAccountId} * group;
    } else {
      assert Parties(x) == {x.accountId};
    }
  }

  lemma PartiesAre(x: Execution, group: set<string>)
    ensures forall a :: a in Parties(x) <==> IsParty(x, a)
    ensures PartiesIn(x, group) == |Parties(x) * group|
    ensures Volume(x, PartiesIn(x, group)) == x.qty * |Parties(x) * group|
  {
    hide Volume;
    PartiesCounted(x, group);
    VolumeIs(x, PartiesIn(x, group));
  }

  lemma {:induction false} InvolvedAppend(trades: seq<Execution>, x: Execution, instrumentId: string, group: set<string>)
    ensures Involved(trades + [x], instrumentId, group)
            == Involved(trades, instrumentId, group) + Involved([x], instrumentId, group)
    ensures Traded(trades + [x], instrumentId) == Traded(trades, instrumentId) + Traded([x], instrumentId)
  {
    hide Parties;
    if trades == [] {
      assert trades + [x] == [x];
    } else {
      assert (trades + [x])[1..] == trades[1..] + [x];
      InvolvedAppend(trades[1..], x, instrumentId, group);
    }
  }

  lemma InvolvedInOne(x: Execution, instrumentId: string, group: set<string>)
    ensures Involved([x], instrumentId, group) == if x.instrumentId == instrumentId then x.qty * |Parties(x) * group| else 0
    ensures Traded([x], instrumentId) == if x.instrumentId == instrumentId then x.qty else 0
  {
    hide Parties;
    assert [x][1..] == [];
  }

  /** The group's volume and the total are what the trades of the instrument add up to. */
  lemma {:induction false} VolumesAre(trades: seq<Execution>, instrumentId: string, group: set<string>)
    ensures GroupQty(trades, instrumentId, group) == Involved(trades, instrumentId, group)
    ensures TotalQty(trades, instrumentId) == Traded(trades, instrumentId)
  {
    if trades != [] {
      var init, x := trades[..|trades| - 1], trades[|trades| - 1];
      VolumesAre(init, instrumentId, group);
      PartiesAre(x, group);
      InvolvedAppend(init, x, instrumentId, group);
      InvolvedInOne(x, instrumentId, group);
      hide Involved, Traded, Parties, PartiesIn, Volume;
      assert trades == init + [x];
    }
  }

  /** A group has enough volume, in a window that has enough, and its part of the window is large enough. */
  predicate Concentrated(cfg: Config, groupQty: int, totalQty: int) {
    && groupQty >= cfg.minAccountQtyThreshold && totalQty >= cfg.minTotalWindowQtyThreshold
    && IsPart(cfg, groupQty, totalQty)
  }

  predicate IsPart(cfg: Config, groupQty: int, totalQty: int) {
    groupQty as real >= cfg.concentrationThreshold * totalQty as real
  }

  lemma QuotientTest(a: real, b: real, t: real)
    requires b > 0.0
    ensures a / b >= t <==> a >= t * b
    ensures (a / b) * b == a
  {
    var r := a / b;
    assert r * b == a;
    if r >= t { Scale(t, r, b); } else { ScaleStrictly(r, t, b); }
  }

  lemma Scale(a: real, b: real, c: real)
    requires a <= b && c > 0.0
    ensures a * c <= b * c
  {
  }

  lemma ScaleStrictly(a: real, b: real, c: real)
    requires a < b && c > 0.0
    ensures a * c < b * c
  {
  }

  lemma ClearsIff(cfg: Config, groupQty: int, totalQty: int)
    requires totalQty > 0
    ensures ClearsShare(cfg, groupQty, totalQty) <==> IsPart(cfg, groupQty, totalQty)
  {
    QuotientTest(groupQty as real, totalQty as real, cfg.concentrationThreshold);
  }

  /** `score` is the part of `totalQty` that `groupQty` is, but never more than one. */
  predicate IsShareOf(score: real, groupQty: int, totalQty: int) {
    if groupQty >= totalQty then score == 1.0 else score * totalQty as real == groupQty as real
  }

  lemma ScoreIsShare(groupQty: int, totalQty: int)
    requires totalQty > 0
    ensures IsShareOf(ScoreOf(groupQty, totalQty), groupQty, totalQty)
    ensures ScoreOf(groupQty, totalQty) == 1.0 || ScoreOf(groupQty, totalQty) == Share(groupQty, totalQty)
  {
    QuotientTest(groupQty as real, totalQty as real, 1.0);
  }

  /**
   With anything traded in the window, a check alerts if and only if no account of the component has
   triggered for the instrument, and the component's part of the window is concentrated.
   */
  lemma AlertIffConcentrated(cfg: Config, accounts: Entities, c: Check, trades: seq<Execution>, seen: set<string>,
                             before: set<Key>, alert: Option<Alert>, after: set<Key>)
    requires Judged(cfg, accounts, c, trades, seen, before, alert, after)
    requires Traded(trades, c.trade.instrumentId) > 0
    ensures var i, group := c.trade.instrumentId, Component(accounts, seen, c.accountId);
            alert.Some? <==>
              && (forall m :: m in group ==> CloseVolumes.Key(i, m) !in before)
              && Concentrated(cfg, Involved(trades, i, group), Traded(trades, i))
  {
    hide Component, GroupQty, TotalQty, Involved, Traded, ClearsShare, IsPart;
    var i, group := c.trade.instrumentId, Component(accounts, seen, c.accountId);
    VolumesAre(trades, i, group);
    ClearsIff(cfg, GroupQty(trades, i, group), TotalQty(trades, i));
  }

  /** With nothing traded in all, the quotient has no finite value; it is then no bar to a group that is not negative. */
  lemma AlertOnZeroTotal(cfg: Config, accounts: Entities, c: Check, trades: seq<Execution>, seen: set<string>,
                         before: set<Key>, alert: Option<Alert>, after: set<Key>)
    requires Judged(cfg, accounts, c, trades, seen, before, alert, after)
    requires Traded(trades, c.trade.instrumentId) == 0
    ensures var i, group := c.trade.instrumentId, Component(accounts, seen, c.accountId);
            var groupQty := Involved(trades, i, group);
            && (alert.Some? <==>
                  && (forall m :: m in group ==> CloseVolumes.Key(i, m) !in before)
                  && groupQty >= cfg.minAccountQtyThreshold && 0 >= cfg.minTotalWindowQtyThreshold && groupQty >= 0)
            && (alert.Some? ==> alert.value.score == 1.0)
  {
    hide Component, GroupQty, TotalQty, Involved, Traded;
    VolumesAre(trades, c.trade.instrumentId, Component(accounts, seen, c.accountId));
  }

  /**
   An alert names its group, the window up to the trade, and a score that is the group's part of the window
   and so no less than the threshold, unless it is one.
   */
  lemma AlertIsAccurate(cfg: Config, accounts: Entities, c: Check, trades: seq<Execution>, seen: set<string>,
                        before: set<Key>, alert: Option<Alert>, after: set<Key>)
    requires Judged(cfg, accounts, c, trades, seen, before, alert, after) && alert.Some?
    requires Traded(trades, c.trade.instrumentId) > 0
    ensures var i, group, a := c.trade.instrumentId, Component(accounts, seen, c.accountId), alert.value;
            && IsShareOf(a.score, Involved(trades, i, group), Traded(trades, i))
            && (a.score == 1.0 || a.score >= cfg.concentrationThreshold)
            && a.instrumentId == i && (forall m :: m in a.accountIds <==> m in group)
            && i in cfg.closeTimeNs && a.windowStartNs == cfg.closeTimeNs[i] - cfg.windowDurationNs
            && a.windowEndNs == c.trade.timestampNs && a.bookSnapshotSequence == c.sequence
            && after == before + {CloseVolumes.Key(i, c.accountId)}
  {
    var i, group := c.trade.instrumentId, Component(accounts, seen, c.accountId);
    VolumesAre(trades, i, group);
    ScoreIsShare(GroupQty(trades, i, group), TotalQty(trades, i));
    hide Component, GroupQty, TotalQty, Involved, Traded, Share, ScoreOf, IsShareOf;
    assert Members(alert.value.accountIds) == group;
  }

  // ---------------------------------------------------------------- the window

  /** Exactly the trades of a known closing window are credited. */
  lemma {:induction false} CreditedIff(cfg: Config, calls: seq<Call>, x: Execution)
    ensures x in WindowTrades(cfg, calls) <==>
            && (exists k :: 0 <= k < |calls| && calls[k].trade == x)
            && x.instrumentId in cfg.closeTimeNs
            && var close := cfg.closeTimeNs[x.instrumentId];
               close - cfg.windowDurationNs <= x.timestampNs && x.timestampNs <= close
  {
    if calls != [] {
      var init, last := calls[..|calls| - 1], calls[|calls| - 1];
      CreditedIff(cfg, init, x);
      assert forall k :: 0 <= k < |init| ==> init[k] == calls[k];
      if k :| 0 <= k < |calls| && calls[k].trade == x {
        assert k < |init| ==> init[k].trade == x;
      }
    }
  }

  /** The accounts checked on a credited trade are its parties, the account before its counterparty. */
  lemma PartiesAreChecked(cfg: Config, c: Call, trades: seq<Execution>)
    ensures var dues := NewDues(cfg, c, trades);
            && (forall k :: 0 <= k < |dues| ==>
                  dues[k].trades == trades && dues[k].check.trade == c.trade && dues[k].check.sequence == c.sequence)
            && (dues == [] <==> !InWindow(cfg, c.trade))
            && (dues != [] ==>
                  && (forall a :: IsParty(c.trade, a) <==> exists k :: 0 <= k < |dues| && dues[k].check.accountId == a)
                  && dues[0].check.accountId == c.trade.accountId && |dues| == |Parties(c.trade)|)
  {
    var x, dues := c.trade, NewDues(cfg, c, trades);
    PartiesAre(x, Parties(x));
    if dues != [] {
      if HasCounterparty(x) {
        assert Parties(x) == {x.accountId, x.counterpartyAccountId};
        assert dues[1].check.accountId == x.counterpartyAccountId;
      } else {
        assert Parties(x) == {x.accountId};
      }
      assert dues[0].check.accountId == x.accountId;
    }
  }
}
