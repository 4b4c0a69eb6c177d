/**
 A rolling window that must survive timestamps running backwards: each event first discards every
 entry further than the window from its own timestamp, in either direction, then may add entries.
 Shared by the front-running detector and the spoofing detector's ambient trackers.
 */
module RollingWindow {

  function Distance(a: int, b: int): nat {
    if a >= b then a - b else b - a
  }

  /** The entries that survive an event at time `now`. */
  function Prune<T>(items: seq<T>, time: T -> int, now: int, window: int): seq<T> {
    if items == [] then []
    else
      var n := |items| - 1;
      Prune(items[..n], time, now, window) + (if Distance(now, time(items[n])) <= window then [items[n]] else [])
  }

  /** The loop behind `erase(remove_if(...))`. */
  method PruneLoop<T>(items: seq<T>, time: T -> int, now: int, window: int) returns (kept: seq<T>)
    ensures kept == Prune(items, time, now, window)
  {
    kept := [];
    for i := 0 to |items|
      invariant kept == Prune(items[..i], time, now, window)
    {
      assert items[..i + 1][..i] == items[..i];
      if Distance(now, time(items[i])) <= window {
        kept := kept + [items[i]];
      }
    }
    assert items[..|items|] == items;
  }

  /** One event of a stream: its timestamp and the entries it adds after pruning. */
  datatype Tick<T> = Tick(now: int, added: seq<T>)

  /** The window's contents after a stream of events, as the program maintains them. */
  function Contents<T>(stream: seq<Tick<T>>, time: T -> int, window: int): seq<T> {
    if stream == [] then []
    else
      var n := |stream| - 1;
      Prune(Contents(stream[..n], time, window), time, stream[n].now, window) + stream[n].added
  }

  /** Every event of `later` lies within the window of `x`. */
  predicate NeverFar<T>(x: T, time: T -> int, later: seq<Tick<T>>, window: int) {
    forall j :: 0 <= j < |later| ==> Distance(later[j].now, time(x)) <= window
  }

  /** The entries that no event of `later` is too far from. */
  function NeverLost<T>(items: seq<T>, time: T -> int, later: seq<Tick<T>>, window: int): seq<T> {
    if items == [] then []
    else
      var n := |items| - 1;
      NeverLost(items[..n], time, later, window) + (if NeverFar(items[n], time, later, window) then [items[n]] else [])
  }

  /** The reference: of all entries ever added, those that no later event was too far from. */
  function Survivors<T>(stream: seq<Tick<T>>, time: T -> int, window: int): seq<T> {
    if stream == [] then []
    else NeverLost(stream[0].added, time, stream[1..], window) + Survivors(stream[1..], time, window)
  }

  lemma {:induction false} PruneAppend<T>(a: seq<T>, b: seq<T>, time: T -> int, now: int, window: int)
    ensures Prune(a + b, time, now, window) == Prune(a, time, now, window) + Prune(b, time, now, window)
  {
    if b == [] {
      assert a + b == a;
    } else {
      var n := |b| - 1;
      assert (a + b)[..|a + b| - 1] == a + b[..n];
      PruneAppend(a, b[..n], time, now, window);
    }
  }

  lemma {:induction false} NothingLater<T>(items: seq<T>, time: T -> int, window: int)
    ensures NeverLost(items, time, [], window) == items
  {
    if items != [] {
      NothingLater(items[..|items| - 1], time, window);
    }
  }

  lemma NeverFarStep<T>(x: T, time: T -> int, later: seq<Tick<T>>, e: Tick<T>, window: int)
    ensures NeverFar(x, time, later + [e], window) <==>
            NeverFar(x, time, later, window) && Distance(e.now, time(x)) <= window
  {
    var all := later + [e];
    if NeverFar(x, time, all, window) {
      assert all[|later|] == e;
      assert forall j :: 0 <= j < |later| ==> all[j] == later[j];
    }
  }

  lemma {:induction false} OneMoreEvent<T>(items: seq<T>, time: T -> int, later: seq<Tick<T>>, e: Tick<T>, window: int)
    ensures NeverLost(items, time, later + [e], window) == Prune(NeverLost(items, time, later, window), time, e.now, window)
  {
    if items != [] {
      var n := |items| - 1;
      OneMoreEvent(items[..n], time, later, e, window);
      NeverFarStep(items[n], time, later, e, window);
      PruneAppend(NeverLost(items[..n], time, later, window),
                  if NeverFar(items[n], time, later, window) then [items[n]] else [], time, e.now, window);
    }
  }

  lemma {:induction false} NeverLostMembers<T>(items: seq<T>, time: T -> int, later: seq<Tick<T>>, window: int)
    ensures forall x :: x in NeverLost(items, time, later, window) <==> x in items && NeverFar(x, time, later, window)
  {
    if items != [] {
      var n := |items| - 1;
      NeverLostMembers(items[..n], time, later, window);
      assert items == items[..n] + [items[n]];
    }
  }

  ghost predicate SurvivesFrom<T>(x: T, i: nat, stream: seq<Tick<T>>, time: T -> int, window: int) {
    i < |stream| && x in stream[i].added && NeverFar(x, time, stream[i + 1..], window)
  }

  /** Membership in the window: added by some event, and no later event was too far. */
  lemma {:induction false} SurvivorsMembers<T>(stream: seq<Tick<T>>, x: T, time: T -> int, window: int)
    ensures x in Survivors(stream, time, window) <==> exists i: nat :: SurvivesFrom(x, i, stream, time, window)
  {
    if stream != [] {
      var rest := stream[1..];
      SurvivorsMembers(rest, x, time, window);
      NeverLostMembers(stream[0].added, time, rest, window);
      if x in NeverLost(stream[0].added, time, rest, window) {
        assert SurvivesFrom(x, 0, stream, time, window);
      }
      if i: nat :| SurvivesFrom(x, i, rest, time, window) {
        assert rest[i + 1..] == stream[i + 2..];
        assert SurvivesFrom(x, i + 1, stream, time, window);
      }
      if i: nat :| SurvivesFrom(x, i, stream, time, window) && i > 0 {
        assert rest[i - 1 + 1..] == stream[i + 1..];
        assert SurvivesFrom(x, i - 1, rest, time, window);
      }
    }
  }

  /** One more event prunes the survivors and adds its own entries. */
  lemma {:induction false} SurvivorsStep<T>(stream: seq<Tick<T>>, e: Tick<T>, time: T -> int, window: int)
    ensures Survivors(stream + [e], time, window) == Prune(Survivors(stream, time, window), time, e.now, window) + e.added
  {
    if stream == [] {
      assert stream + [e] == [e] && [e][1..] == [];
      NothingLater(e.added, time, window);
    } else {
      var rest := stream[1..];
      assert (stream + [e])[1..] == rest + [e];
      SurvivorsStep(rest, e, time, window);
      OneMoreEvent(stream[0].added, time, rest, e, window);
      PruneAppend(NeverLost(stream[0].added, time, rest, window), Survivors(rest, time, window), time, e.now, window);
    }
  }

  /** An entry is in the window iff every event after its own was within the window of it. */
  lemma {:induction false} WindowHoldsSurvivors<T>(stream: seq<Tick<T>>, time: T -> int, window: int)
    ensures Contents(stream, time, window) == Survivors(stream, time, window)
  {
    if stream != [] {
      var n := |stream| - 1;
      WindowHoldsSurvivors(stream[..n], time, window);
      SurvivorsStep(stream[..n], stream[n], time, window);
      assert stream[..n] + [stream[n]] == stream;
    }
  }

  // ------------------------------------------------ streams that only move forward

  ghost predicate Nondecreasing<T>(items: seq<T>, time: T -> int, now: int) {
    && (forall i, j :: 0 <= i <= j < |items| ==> time(items[i]) <= time(items[j]))
    && (forall i :: 0 <= i < |items| ==> time(items[i]) <= now)
  }

  /** Dropping entries from the front only, as long as the front one is too old. */
  function TrimFront<T>(items: seq<T>, time: T -> int, now: int, window: int): seq<T> {
    if items == [] || now - time(items[0]) <= window then items
    else TrimFront(items[1..], time, now, window)
  }

  lemma {:induction false} PruneNothing<T>(items: seq<T>, time: T -> int, now: int, window: int)
    requires forall i :: 0 <= i < |items| ==> Distance(now, time(items[i])) <= window
    ensures Prune(items, time, now, window) == items
  {
    if items != [] {
      var n := |items| - 1;
      assert Distance(now, time(items[n])) <= window;
      PruneNothing(items[..n], time, now, window);
      hide Distance;
      assert items[..n] + [items[n]] == items;
    }
  }

  /** When time never runs backwards, the full scan does what a front-only trim would. */
  lemma {:induction false} ForwardPruneIsFrontTrim<T>(items: seq<T>, time: T -> int, now: int, window: int)
    requires Nondecreasing(items, time, now)
    ensures Prune(items, time, now, window) == TrimFront(items, time, now, window)
  {
    if items != [] {
      if now - time(items[0]) <= window {
        PruneNothing(items, time, now, window);
      } else {
        assert time(items[0]) <= now;
        assert items == [items[0]] + items[1..];
        PruneAppend([items[0]], items[1..], time, now, window);
        assert [items[0]][..0] == [];
        ForwardPruneIsFrontTrim(items[1..], time, now, window);
      }
    }
  }

  /** What the window would hold if each event only trimmed its front. */
  function FrontContents<T>(stream: seq<Tick<T>>, time: T -> int, window: int): seq<T> {
    if stream == [] then []
    else
      var n := |stream| - 1;
      TrimFront(FrontContents(stream[..n], time, window), time, stream[n].now, window) + stream[n].added
  }

  /** Time never falls along the stream, never passes `latest`, and entries carry the time of their event. */
  ghost predicate Forward<T>(stream: seq<Tick<T>>, time: T -> int, latest: int) {
    && (forall i, j :: 0 <= i <= j < |stream| ==> stream[i].now <= stream[j].now)
    && (forall i :: 0 <= i < |stream| ==> stream[i].now <= latest)
    && (forall i, x :: 0 <= i < |stream| && x in stream[i].added ==> time(x) == stream[i].now)
  }

  lemma ForwardInit<T>(stream: seq<Tick<T>>, time: T -> int, latest: int)
    requires stream != [] && Forward(stream, time, latest)
    ensures var n := |stream| - 1;
            && Forward(stream[..n], time, stream[n].now) && stream[n].now <= latest
            && forall x :: x in stream[n].added ==> time(x) == stream[n].now
  {
    var n := |stream| - 1;
    var init := stream[..n];
    assert forall i :: 0 <= i < n ==> init[i] == stream[i];
  }

  lemma {:induction false} PruneKeepsOrder<T>(items: seq<T>, time: T -> int, now: int, window: int, latest: int)
    requires Nondecreasing(items, time, latest)
    ensures Nondecreasing(Prune(items, time, now, window), time, latest)
  {
    if items != [] {
      var n := |items| - 1;
      assert Nondecreasing(items[..n], time, time(items[n]));
      PruneKeepsOrder(items[..n], time, now, window, time(items[n]));
    }
  }

  lemma AppendKeepsOrder<T>(items: seq<T>, added: seq<T>, time: T -> int, now: int, latest: int)
    requires Nondecreasing(items, time, now) && now <= latest && forall x :: x in added ==> time(x) == now
    ensures Nondecreasing(items + added, time, latest)
  {
    assert forall i :: 0 <= i < |added| ==> added[i] in added;
  }

  lemma {:induction false} ContentsInOrder<T>(stream: seq<Tick<T>>, time: T -> int, window: int, latest: int)
    requires Forward(stream, time, latest)
    ensures Nondecreasing(Contents(stream, time, window), time, latest)
  {
    if stream != [] {
      hide Forward, Nondecreasing, Prune;
      var n := |stream| - 1;
      ForwardInit(stream, time, latest);
      ContentsInOrder(stream[..n], time, window, stream[n].now);
      PruneKeepsOrder(Contents(stream[..n], time, window), time, stream[n].now, window, stream[n].now);
      AppendKeepsOrder(Prune(Contents(stream[..n], time, window), time, stream[n].now, window), stream[n].added,
                       time, stream[n].now, latest);
    } else {
      NothingInOrder(time, latest);
    }
  }

  lemma NothingInOrder<T>(time: T -> int, latest: int)
    ensures Nondecreasing([], time, latest)
  {
  }

  /** On every stream whose time never falls, the full scans leave exactly what trimming the front would. */
  lemma {:induction false} ForwardStreamIsFrontTrimmed<T>(stream: seq<Tick<T>>, time: T -> int, window: int, latest: int)
    requires Forward(stream, time, latest)
    ensures Contents(stream, time, window) == FrontContents(stream, time, window)
  {
    if stream != [] {
      hide Forward, Nondecreasing, Prune, TrimFront;
      var n := |stream| - 1;
      ForwardInit(stream, time, latest);
      ForwardStreamIsFrontTrimmed(stream[..n], time, window, stream[n].now);
      ContentsInOrder(stream[..n], time, window, stream[n].now);
      ForwardPruneIsFrontTrim(Contents(stream[..n], time, window), time, stream[n].now, window);
    }
  }

  lemma ForwardOneMore<T>(stream: seq<Tick<T>>, time: T -> int, e: Tick<T>, latest: int)
    requires Forward(stream, time, e.now) && e.now <= latest && forall x :: x in e.added ==> time(x) == e.now
    ensures Forward(stream + [e], time, latest)
  {
  }
}
