/** When the incremental counters equal the number of tracked orders, and what the ambient windows hold. */
module SpoofingCounts {
  import opened Options
  import opened FixTypes
  import opened BookModel
  import opened RollingWindow
  import opened SpoofingScore
  import opened SpoofingModel

  type Tracked = map<string, TrackedOrder>

  type Counts = map<CountKey, int>

  function IdsWith(tracked: Tracked, key: CountKey): set<string> {
    set id | id in tracked && KeyOf(tracked[id]) == key
  }

  /** Every counter is the number of tracked orders with its key, and no counter is kept at zero. */
  ghost predicate CountsExact(tracked: Tracked, counts: Counts) {
    && (forall key :: CountOf(counts, key) == |IdsWith(tracked, key)|)
    && (forall key :: key in counts ==> counts[key] > 0)
  }

  lemma EraseKeepsCounts(s: State, id: string)
    requires CountsExact(s.tracked, s.counts)
    ensures CountsExact(EraseTracked(s, id).tracked, EraseTracked(s, id).counts)
  {
    if id in s.tracked {
      var t := EraseTracked(s, id);
      forall key
        ensures CountOf(t.counts, key) == |IdsWith(t.tracked, key)|
      {
        if key == KeyOf(s.tracked[id]) {
          assert id in IdsWith(s.tracked, key);
          assert IdsWith(t.tracked, key) == IdsWith(s.tracked, key) - {id};
        } else {
          assert IdsWith(t.tracked, key) == IdsWith(s.tracked, key);
        }
      }
    }
  }

  lemma FreshKeepsCounts(tracked: Tracked, counts: Counts, id: string, t: TrackedOrder)
    requires CountsExact(tracked, counts) && id !in tracked
    ensures CountsExact(tracked[id := t], counts[KeyOf(t) := CountOf(counts, KeyOf(t)) + 1])
  {
    var after := tracked[id := t];
    var recounted := counts[KeyOf(t) := CountOf(counts, KeyOf(t)) + 1];
    hide IdsWith;
    forall key
      ensures CountOf(recounted, key) == |IdsWith(after, key)|
    {
      IdsAfterAdding(tracked, id, t, key);
    }
  }

  lemma IdsAfterAdding(tracked: Tracked, id: string, t: TrackedOrder, key: CountKey)
    requires id !in tracked
    ensures |IdsWith(tracked[id := t], key)| == |IdsWith(tracked, key)| + (if key == KeyOf(t) then 1 else 0)
  {
    assert id !in IdsWith(tracked, key);
    assert IdsWith(tracked[id := t], key) == IdsWith(tracked, key) + (if key == KeyOf(t) then {id} else {});
  }

  /** Overwriting a tracked order leaves the counter of its old key one too high. */
  lemma OverwriteBreaksCounts(tracked: Tracked, counts: Counts, id: string, t: TrackedOrder)
    requires CountsExact(tracked, counts) && id in tracked
    ensures var recounted := counts[KeyOf(t) := CountOf(counts, KeyOf(t)) + 1];
            var lost := KeyOf(tracked[id]);
            CountOf(recounted, lost) == |IdsWith(tracked[id := t], lost)| + 1
  {
    var lost := KeyOf(tracked[id]);
    assert id in IdsWith(tracked, lost);
    assert IdsWith(tracked[id := t], lost) == IdsWith(tracked, lost) - (if lost == KeyOf(t) then {} else {id});
  }

  /** Counting one more tracked order is right exactly when its id was not tracked before. */
  lemma AddKeepsCounts(tracked: Tracked, counts: Counts, id: string, t: TrackedOrder)
    requires CountsExact(tracked, counts)
    ensures CountsExact(tracked[id := t], counts[KeyOf(t) := CountOf(counts, KeyOf(t)) + 1]) <==> id !in tracked
  {
    if id !in tracked {
      FreshKeepsCounts(tracked, counts, id, t);
    } else {
      OverwriteBreaksCounts(tracked, counts, id, t);
    }
  }

  lemma ExecutionKeepsCounts(s: State, x: Execution)
    requires CountsExact(s.tracked, s.counts)
    ensures CountsExact(HandleExecution(s, x).tracked, HandleExecution(s, x).counts)
  {
    if x.orderId in s.tracked {
      var t := s.tracked[x.orderId].(remainingQty := s.tracked[x.orderId].remainingQty - x.qty);
      var after := s.(tracked := s.tracked[x.orderId := t]);
      assert forall key :: IdsWith(after.tracked, key) == IdsWith(s.tracked, key);
      EraseKeepsCounts(after, x.orderId);
    }
  }

  /** The event tracks an id that is still tracked, without retiring it first. */
  predicate Overwrites(s: State, e: Event) {
    e.OrderEvent? && e.order.orderId in s.tracked
    && (e.order.status.New? || (e.order.status.Replaced? && e.order.orderId != e.order.origOrderId))
  }

  /** After any event the counters are exact again if and only if it overwrote no tracked order. */
  lemma CountsStayExactIff(cfg: Config, s: State, b: Book, e: Event)
    requires CountsExact(s.tracked, s.counts)
    ensures var t := Evaluate(cfg, s, b, e).0;
            CountsExact(t.tracked, t.counts) <==> !Overwrites(s, e)
  {
    hide CountsExact, Placement;
    var q := QuotesOf(b.live, e);
    var u := UpdateAmbient(cfg, s, q, e.InstrumentId(), e.TimestampNs());
    assert u.tracked == s.tracked && u.counts == s.counts;
    match e {
      case ExecutionEvent(x) => ExecutionKeepsCounts(u, x);
      case OrderEvent(o) =>
        EraseKeepsCounts(u, o.origOrderId);
        var v := EraseTracked(u, o.origOrderId);
        AddKeepsCounts(u.tracked, u.counts, o.orderId, Placement(q, o));
        AddKeepsCounts(v.tracked, v.counts, o.orderId, Placement(q, o));
    }
  }

  // ---------------------------------------------------------- ambient windows

  /** One accepted event and the book right after it, as the detector is called with them. */
  datatype Call = Call(book: Book, event: Event)

  function After(cfg: Config, calls: seq<Call>): State {
    if calls == [] then INITIAL
    else
      var last := calls[|calls| - 1];
      Evaluate(cfg, After(cfg, calls[..|calls| - 1]), last.book, last.event).0
  }

  /** The sample an event leaves in the window of one instrument and side, given the state after it. */
  function SamplesLeft(s: State, e: Event, side: Side): seq<Sample> {
    if e.OrderEvent? && !e.order.status.Cancelled? && e.order.side == side
    then [Sample(e.order.timestampNs, e.order.accountId,
                 CountOf(s.counts, CountKey(e.order.accountId, e.order.instrumentId, side)))]
    else []
  }

  /** Every event of the instrument, with the sample it leaves. */
  function SampleTicks(cfg: Config, calls: seq<Call>, key: AmbientKey): seq<Tick<Sample>> {
    if calls == [] then []
    else
      var e := calls[|calls| - 1].event;
      SampleTicks(cfg, calls[..|calls| - 1], key)
      + (if e.InstrumentId() == key.instrumentId
         then [Tick(e.TimestampNs(), SamplesLeft(After(cfg, calls), e, key.side))] else [])
  }

  lemma UpdateAmbientAt(cfg: Config, s: State, q: Quotes, instrumentId: string, ts: int, key: AmbientKey)
    ensures var u := UpdateAmbient(cfg, s, q, instrumentId, ts);
            && u.tracked == s.tracked && u.counts == s.counts
            && AmbientOf(u.ambient, key) ==
               if key.instrumentId == instrumentId then Observed(cfg, AmbientOf(s.ambient, key), q.Best(key.side), ts)
               else AmbientOf(s.ambient, key)
  {
    hide Observed;
    var buy := UpdateSide(cfg, s, q, instrumentId, Buy, ts);
    assert key.side == Buy || key.side == Sell;
    if key.instrumentId == instrumentId {
      assert key == AmbientKey(instrumentId, key.side);
      assert AmbientOf(buy.ambient, AmbientKey(instrumentId, Sell)) == AmbientOf(s.ambient, AmbientKey(instrumentId, Sell));
    }
  }

  /** Only the tracking of a new order adds to a window, and only to that of its instrument and side. */
  lemma ReactAt(u: State, q: Quotes, e: Event, key: AmbientKey)
    ensures var t := React(u, q, e);
            AmbientOf(t.ambient, key).samples == AmbientOf(u.ambient, key).samples
            + (if e.InstrumentId() == key.instrumentId then SamplesLeft(t, e, key.side) else [])
  {
    var samples := AmbientOf(u.ambient, key).samples;
    assert samples + [] == samples;
  }

  lemma SamplesStep(cfg: Config, s: State, b: Book, e: Event, key: AmbientKey)
    ensures var t := Evaluate(cfg, s, b, e).0;
            AmbientOf(t.ambient, key).samples ==
            if e.InstrumentId() == key.instrumentId
            then Prune(AmbientOf(s.ambient, key).samples, SampleTime(), e.TimestampNs(), cfg.densityWindowNs)
                 + SamplesLeft(t, e, key.side)
            else AmbientOf(s.ambient, key).samples
  {
    hide React, UpdateAmbient, SamplesLeft, AmbientOf, CancelAlerts, QuotesOf;
    var q := QuotesOf(b.live, e);
    UpdateAmbientAt(cfg, s, q, e.InstrumentId(), e.TimestampNs(), key);
    var u := UpdateAmbient(cfg, s, q, e.InstrumentId(), e.TimestampNs());
    ReactAt(u, q, e, key);
    assert AmbientOf(u.ambient, key).samples + [] == AmbientOf(u.ambient, key).samples;
  }

  /** A sample window is exactly the rolling window over the instrument's events. */
  lemma {:induction false} SamplesAreTheWindow(cfg: Config, calls: seq<Call>, key: AmbientKey)
    ensures AmbientOf(After(cfg, calls).ambient, key).samples ==
            Contents(SampleTicks(cfg, calls, key), SampleTime(), cfg.densityWindowNs)
  {
    if calls != [] {
      var init, last := calls[..|calls| - 1], calls[|calls| - 1];
      SamplesAreTheWindow(cfg, init, key);
      hide Evaluate, SamplesLeft, AmbientOf;
      SamplesStep(cfg, After(cfg, init), last.book, last.event, key);
      var ticks := SampleTicks(cfg, init, key);
      if last.event.InstrumentId() == key.instrumentId {
        var tick := Tick(last.event.TimestampNs(), SamplesLeft(After(cfg, calls), last.event, key.side));
        assert (ticks + [tick])[..|ticks|] == ticks;
      } else {
        assert ticks + [] == ticks;
      }
    }
  }

  /** A sample is still in its window iff every later event of the instrument was within the window of it. */
  lemma SampleRetainedIff(cfg: Config, calls: seq<Call>, key: AmbientKey, x: Sample)
    ensures var ticks := SampleTicks(cfg, calls, key);
            x in AmbientOf(After(cfg, calls).ambient, key).samples <==>
            exists i: nat :: SurvivesFrom(x, i, ticks, SampleTime(), cfg.densityWindowNs)
  {
    var ticks := SampleTicks(cfg, calls, key);
    SamplesAreTheWindow(cfg, calls, key);
    WindowHoldsSurvivors(ticks, SampleTime(), cfg.densityWindowNs);
    SurvivorsMembers(ticks, x, SampleTime(), cfg.densityWindowNs);
  }

  /** The best price of the side differs from the last one known when the event arrived. */
  predicate Moves(s: State, live: seq<Resting>, key: AmbientKey) {
    var last, now := AmbientOf(s.ambient, key).lastBest, BestOf(live, key.side);
    last.Some? && now.Some? && now.value != last.value
  }

  /** Every event of the instrument, with the move it brings, if any. */
  function MoveTicks(cfg: Config, calls: seq<Call>, key: AmbientKey): seq<Tick<int>> {
    if calls == [] then []
    else
      var init, last := calls[..|calls| - 1], calls[|calls| - 1];
      var ts := last.event.TimestampNs();
      MoveTicks(cfg, init, key)
      + (if last.event.InstrumentId() == key.instrumentId
         then [Tick(ts, if Moves(After(cfg, init), last.book.live, key) then [ts] else [])] else [])
  }

  lemma ReactLeavesMoves(u: State, q: Quotes, e: Event, key: AmbientKey)
    ensures AmbientOf(React(u, q, e).ambient, key).moves == AmbientOf(u.ambient, key).moves
  {
  }

  lemma MovesStep(cfg: Config, s: State, b: Book, e: Event, key: AmbientKey)
    requires cfg.densityWindowNs >= 0
    ensures var t, ts := Evaluate(cfg, s, b, e).0, e.TimestampNs();
            AmbientOf(t.ambient, key).moves ==
            if e.InstrumentId() == key.instrumentId
            then Prune(AmbientOf(s.ambient, key).moves, MoveTime(), ts, cfg.densityWindowNs)
                 + (if Moves(s, b.live, key) then [ts] else [])
            else AmbientOf(s.ambient, key).moves
  {
    hide React, UpdateAmbient, CancelAlerts, AmbientOf;
    var q, ts := QuotesOf(b.live, e), e.TimestampNs();
    UpdateAmbientAt(cfg, s, q, e.InstrumentId(), ts, key);
    ReactLeavesMoves(UpdateAmbient(cfg, s, q, e.InstrumentId(), ts), q, e, key);
    var moves := AmbientOf(s.ambient, key).moves;
    PruneAppend(moves, [ts], MoveTime(), ts, cfg.densityWindowNs);
    assert [ts][..0] == [] && moves + [] == moves;
  }

  /** A move window is the rolling window of the instrument's moves. */
  lemma {:induction false} MovesAreTheWindow(cfg: Config, calls: seq<Call>, key: AmbientKey)
    requires cfg.densityWindowNs >= 0
    ensures AmbientOf(After(cfg, calls).ambient, key).moves ==
            Contents(MoveTicks(cfg, calls, key), MoveTime(), cfg.densityWindowNs)
  {
    if calls != [] {
      var init, last := calls[..|calls| - 1], calls[|calls| - 1];
      MovesAreTheWindow(cfg, init, key);
      hide Evaluate, Moves, AmbientOf;
      MovesStep(cfg, After(cfg, init), last.book, last.event, key);
      var ticks, ts := MoveTicks(cfg, init, key), last.event.TimestampNs();
      if last.event.InstrumentId() == key.instrumentId {
        var tick := Tick(ts, if Moves(After(cfg, init), last.book.live, key) then [ts] else []);
        assert (ticks + [tick])[..|ticks|] == ticks;
      } else {
        assert ticks + [] == ticks;
      }
    }
  }

  // -------------------------------------------- while the instrument's time never falls

  /** The call is about the instrument, at time `ts`. */
  predicate IsAt(c: Call, instrumentId: string, ts: int) {
    c.event.InstrumentId() == instrumentId && c.event.TimestampNs() == ts
  }

  /** The instrument's timestamps never fall, and none is after `latest`. */
  ghost predicate TimeMovesForward(calls: seq<Call>, instrumentId: string, latest: int) {
    && (forall i, j, t, u :: 0 <= i <= j < |calls| && IsAt(calls[i], instrumentId, t) && IsAt(calls[j], instrumentId, u) ==> t <= u)
    && (forall i, t :: 0 <= i < |calls| && IsAt(calls[i], instrumentId, t) ==> t <= latest)
  }

  lemma ForwardSoFar(calls: seq<Call>, instrumentId: string, latest: int)
    requires calls != [] && TimeMovesForward(calls, instrumentId, latest)
    ensures var init, e := calls[..|calls| - 1], calls[|calls| - 1].event;
            && (e.InstrumentId() == instrumentId ==>
                  e.TimestampNs() <= latest && TimeMovesForward(init, instrumentId, e.TimestampNs()))
            && TimeMovesForward(init, instrumentId, latest)
  {
    var n := |calls| - 1;
    assert calls[n].event.InstrumentId() == instrumentId ==> IsAt(calls[n], instrumentId, calls[n].event.TimestampNs());
    hide IsAt;
  }

  lemma {:induction false} TicksMoveForward(cfg: Config, calls: seq<Call>, key: AmbientKey, latest: int)
    requires TimeMovesForward(calls, key.instrumentId, latest)
    ensures Forward(SampleTicks(cfg, calls, key), SampleTime(), latest)
    ensures Forward(MoveTicks(cfg, calls, key), MoveTime(), latest)
  {
    if calls != [] {
      hide Forward, After, Moves, TimeMovesForward;
      ForwardSoFar(calls, key.instrumentId, latest);
      var init, e := calls[..|calls| - 1], calls[|calls| - 1].event;
      var samples, moves, ts := SampleTicks(cfg, init, key), MoveTicks(cfg, init, key), e.TimestampNs();
      if e.InstrumentId() == key.instrumentId {
        TicksMoveForward(cfg, init, key, ts);
        ForwardOneMore(samples, SampleTime(), Tick(ts, SamplesLeft(After(cfg, calls), e, key.side)), latest);
        ForwardOneMore(moves, MoveTime(), Tick(ts, if Moves(After(cfg, init), calls[|calls| - 1].book.live, key) then [ts] else []), latest);
      } else {
        TicksMoveForward(cfg, init, key, latest);
        assert samples + [] == samples && moves + [] == moves;
      }
    } else {
      NoTicks(latest);
    }
  }

  lemma NoTicks(latest: int)
    ensures Forward([], SampleTime(), latest) && Forward([], MoveTime(), latest)
  {
  }

  /** While an instrument's time never falls, both its windows are what a front-only trim would leave. */
  lemma WindowsAreFrontTrimmed(cfg: Config, calls: seq<Call>, key: AmbientKey, latest: int)
    requires TimeMovesForward(calls, key.instrumentId, latest)
    ensures AmbientOf(After(cfg, calls).ambient, key).samples ==
            FrontContents(SampleTicks(cfg, calls, key), SampleTime(), cfg.densityWindowNs)
    ensures cfg.densityWindowNs >= 0 ==>
              AmbientOf(After(cfg, calls).ambient, key).moves ==
              FrontContents(MoveTicks(cfg, calls, key), MoveTime(), cfg.densityWindowNs)
  {
    hide After, SampleTicks, MoveTicks, Forward, Contents, FrontContents, TimeMovesForward;
    TicksMoveForward(cfg, calls, key, latest);
    SamplesAreTheWindow(cfg, calls, key);
    ForwardStreamIsFrontTrimmed(SampleTicks(cfg, calls, key), SampleTime(), cfg.densityWindowNs, latest);
    if cfg.densityWindowNs >= 0 {
      MovesAreTheWindow(cfg, calls, key);
      ForwardStreamIsFrontTrimmed(MoveTicks(cfg, calls, key), MoveTime(), cfg.densityWindowNs, latest);
    }
  }
}
