/**
  Interleaving: several streams of events woven into one by a schedule that says
  whose turn it is, each stream keeping its own order.
*/
module Weaving {
  import opened Json

  /** How often stream `i` has its turn. */
  function Turns(schedule: seq<nat>, i: nat): nat {
    if schedule == [] then 0
    else Turns(schedule[..|schedule| - 1], i) + if schedule[|schedule| - 1] == i then 1 else 0
  }

  /** No stream has more turns than events. */
  ghost predicate Fits(streams: seq<seq<Json>>, schedule: seq<nat>) {
    && (forall k :: 0 <= k < |schedule| ==> schedule[k] < |streams|)
    && forall i: nat :: i < |streams| ==> Turns(schedule, i) <= |streams[i]|
  }

  /** Every stream is woven in whole. */
  ghost predicate Completes(streams: seq<seq<Json>>, schedule: seq<nat>) {
    Fits(streams, schedule) && forall i: nat :: i < |streams| ==> Turns(schedule, i) == |streams[i]|
  }

  lemma FitsBefore(streams: seq<seq<Json>>, schedule: seq<nat>)
    requires Fits(streams, schedule) && schedule != []
    ensures var before, last := schedule[..|schedule| - 1], schedule[|schedule| - 1];
            Fits(streams, before) && last < |streams| && Turns(before, last) < |streams[last]|
  {
    var before, last := schedule[..|schedule| - 1], schedule[|schedule| - 1];
    forall i: nat | i < |streams| ensures Turns(before, i) <= |streams[i]| {
      assert Turns(schedule, i) <= |streams[i]|;
    }
    assert Turns(schedule, last) <= |streams[last]|;
  }

  ghost function Weave(streams: seq<seq<Json>>, schedule: seq<nat>): seq<Json>
    requires Fits(streams, schedule)
  {
    if schedule == [] then []
    else
      var before, last := schedule[..|schedule| - 1], schedule[|schedule| - 1];
      FitsBefore(streams, schedule);
      Weave(streams, before) + [streams[last][Turns(before, last)]]
  }

  /** The test tells the events of stream `i` from all others. */
  ghost predicate TellsApart(streams: seq<seq<Json>>, i: nat, keep: Json -> bool) {
    forall k, j :: 0 <= k < |streams| && 0 <= j < |streams[k]| ==> (keep(streams[k][j]) <==> k == i)
  }

  lemma ToldApart(streams: seq<seq<Json>>, i: nat, keep: Json -> bool, k: nat, j: nat)
    requires TellsApart(streams, i, keep) && k < |streams| && j < |streams[k]|
    ensures keep(streams[k][j]) <==> k == i
  {}

  lemma FilterSnoc(events: seq<Json>, last: Json, keep: Json -> bool)
    ensures Filter(events + [last], keep) == Filter(events, keep) + if keep(last) then [last] else []
  {
    assert (events + [last])[..|events|] == events;
  }

  lemma {:induction false} WovenSoFar(streams: seq<seq<Json>>, schedule: seq<nat>, i: nat, keep: Json -> bool)
    requires Fits(streams, schedule) && TellsApart(streams, i, keep)
    ensures i < |streams| ==> Turns(schedule, i) <= |streams[i]|
    ensures Filter(Weave(streams, schedule), keep) == if i < |streams| then streams[i][..Turns(schedule, i)] else []
    decreases |schedule|
  {
    if schedule != [] {
      hide Fits, TellsApart, Filter;
      var before, last := schedule[..|schedule| - 1], schedule[|schedule| - 1];
      FitsBefore(streams, schedule);
      WovenSoFar(streams, before, i, keep);
      ToldApart(streams, i, keep, last, Turns(before, last));
      FilterSnoc(Weave(streams, before), streams[last][Turns(before, last)], keep);
    }
  }

  /** A test that tells one stream from the others finds that stream in the woven events, and nothing else. */
  lemma StreamIsFound(streams: seq<seq<Json>>, schedule: seq<nat>, i: nat, keep: Json -> bool)
    requires Completes(streams, schedule) && TellsApart(streams, i, keep)
    ensures Filter(Weave(streams, schedule), keep) == if i < |streams| then streams[i] else []
  {
    WovenSoFar(streams, schedule, i, keep);
  }

  /** Only events of the streams are woven in. */
  lemma {:induction false} WovenFrom(streams: seq<seq<Json>>, schedule: seq<nat>, v: Json)
    requires Fits(streams, schedule) && v in Weave(streams, schedule)
    ensures exists k, j :: 0 <= k < |streams| && 0 <= j < |streams[k]| && streams[k][j] == v
    decreases |schedule|
  {
    if schedule != [] {
      var before, last := schedule[..|schedule| - 1], schedule[|schedule| - 1];
      FitsBefore(streams, schedule);
      if v in Weave(streams, before) {
        WovenFrom(streams, before, v);
      } else {
        assert streams[last][Turns(before, last)] == v;
      }
    }
  }

  // --- A schedule exists ---------------------------------------------------------------

  /** Stream `i` has `n` turns in a row. */
  function Row(i: nat, n: nat): (schedule: seq<nat>)
    ensures |schedule| == n && forall k :: 0 <= k < n ==> schedule[k] == i
  {
    seq(n, _ => i)
  }

  lemma {:induction false} TurnsInRow(before: seq<nat>, i: nat, n: nat, other: nat)
    ensures Turns(before + Row(i, n), other) == Turns(before, other) + if other == i then n else 0
    decreases n
  {
    if n == 0 {
      assert before + Row(i, 0) == before;
    } else {
      TurnsInRow(before, i, n - 1, other);
      assert before + Row(i, n) == (before + Row(i, n - 1)) + [i];
      var all := (before + Row(i, n - 1)) + [i];
      assert all[..|all| - 1] == before + Row(i, n - 1);
    }
  }

  /** The first `n` streams, one after the other. */
  function OneByOne(streams: seq<seq<Json>>, n: nat): seq<nat>
    requires n <= |streams|
  {
    if n == 0 then [] else OneByOne(streams, n - 1) + Row(n - 1, |streams[n - 1]|)
  }

  lemma {:induction false} OneByOneTurns(streams: seq<seq<Json>>, n: nat, i: nat)
    requires n <= |streams|
    ensures Turns(OneByOne(streams, n), i) == if i < n then |streams[i]| else 0
    ensures forall k :: 0 <= k < |OneByOne(streams, n)| ==> OneByOne(streams, n)[k] < n
  {
    if n > 0 {
      OneByOneTurns(streams, n - 1, i);
      TurnsInRow(OneByOne(streams, n - 1), n - 1, |streams[n - 1]|, i);
    }
  }

  lemma OneByOneCompletes(streams: seq<seq<Json>>)
    ensures Completes(streams, OneByOne(streams, |streams|))
  {
    OneByOneTurns(streams, |streams|, 0);
    forall i: nat | i < |streams| ensures Turns(OneByOne(streams, |streams|), i) == |streams[i]| {
      OneByOneTurns(streams, |streams|, i);
    }
  }
}
