/** The chunked drains: every row once, in order, and the merged drain equal to the plain
    one. */
module LaneDrains {
  import opened Options
  import opened Lanes

  const CHUNK: nat := 1024

  // ---------------------------------------------------------------- one tree

  /** Past a key of the lane, the lane has been passed up to and with it. */
  lemma PassedKey(lane: seq<Entry>, to: nat)
    requires IsLane(lane) && 0 < to <= |lane|
    ensures Passed(lane, Excluded(lane[to - 1].key)) == to
  {
    var low := Excluded(lane[to - 1].key);
    PassedSplits(lane, low, to - 1);
    if to < |lane| { PassedSplits(lane, low, to); }
  }

  /** A chunk goes on from the rows passed: to the rows passed at its cursor, or to the end. */
  lemma ChunkDrains(lane: seq<Entry>, low: Bound)
    requires IsLane(lane)
    ensures var (rows, cursor) := RangeWithCursor(lane, 0, low, CHUNK);
            var drained := Rows(lane[..Passed(lane, low)], 0) + rows;
            if cursor.None? then drained == Rows(lane, 0)
            else
              && drained == Rows(lane[..Passed(lane, Excluded(cursor.value))], 0)
              && Passed(lane, low) < Passed(lane, Excluded(cursor.value))
  {
    var from, to := Passed(lane, low), ChunkEnd(lane, low, CHUNK);
    RowsSplit(lane, from, to, 0);
    if from < to {
      PassedKey(lane, to);
    }
  }

  lemma RowsSplit(lane: seq<Entry>, from: nat, to: nat, i: nat)
    requires from <= to <= |lane|
    ensures Rows(lane[..to], i) == Rows(lane[..from], i) + Rows(lane[from..to], i)
    ensures lane[..|lane|] == lane
  {
    assert lane[..to] == lane[..from] + lane[from..to];
    RowsAppend(lane[..from], lane[from..to], i);
  }

  method DrainPlain(lane: seq<Entry>) returns (total: nat, ghost out: seq<Row>)
    requires IsLane(lane)
    ensures total == |Rows(lane, 0)|
    ensures out == Rows(lane, 0)
  {
    var low := Unbounded;
    total, out := 0, [];
    while true
      invariant out == Rows(lane[..Passed(lane, low)], 0) && total == |out|
      decreases |lane| - Passed(lane, low)
    {
      var (rows, cursor) := RangeWithCursor(lane, 0, low, CHUNK);
      ChunkDrains(lane, low);
      total, out := total + |rows|, out + rows;
      if cursor.None? {
        return;
      }
      low := Excluded(cursor.value);
    }
  }

  // ---------------------------------------------------------------- all lanes

  /** The rows of every lane that the bound has passed. */
  ghost function PassedRows(lanes: seq<seq<Entry>>, low: Bound): multiset<Row> {
    if |lanes| == 0 then multiset{}
    else
      var n := |lanes| - 1;
      PassedRows(lanes[..n], low) + multiset(Rows(lanes[n][..Passed(lanes[n], low)], n))
  }

  /** Every visible row of every lane. */
  ghost function AllRows(lanes: seq<seq<Entry>>): multiset<Row> {
    if |lanes| == 0 then multiset{}
    else AllRows(lanes[..|lanes| - 1]) + multiset(Rows(lanes[|lanes| - 1], |lanes| - 1))
  }

  /** Entries the bound has not passed. */
  function Left(lanes: seq<seq<Entry>>, low: Bound): nat {
    if |lanes| == 0 then 0
    else Left(lanes[..|lanes| - 1], low) + |lanes[|lanes| - 1]| - Passed(lanes[|lanes| - 1], low)
  }

  /** `runs` are the lanes' rows between the bound and the frontier. */
  ghost predicate AreBetween(lanes: seq<seq<Entry>>, low: Bound, f: nat, runs: seq<seq<Row>>) {
    |runs| == |lanes| && forall i :: 0 <= i < |lanes| ==> IsBetween(lanes[i], i, low, f, runs[i])
  }

  ghost predicate IsBetween(lane: seq<Entry>, i: nat, low: Bound, f: nat, run: seq<Row>) {
    var from, upto := Passed(lane, low), Passed(lane, Excluded(f));
    from <= upto && run == Rows(lane[from..upto], i)
  }

  lemma {:induction false} RoundRows(lanes: seq<seq<Entry>>, low: Bound, f: nat, runs: seq<seq<Row>>)
    requires AreBetween(lanes, low, f, runs)
    ensures PassedRows(lanes, Excluded(f)) == PassedRows(lanes, low) + Taken(runs, Ends(runs))
  {
    if |lanes| > 0 {
      var n := |lanes| - 1;
      assert AreBetween(lanes[..n], low, f, runs[..n]);
      RoundRows(lanes[..n], low, f, runs[..n]);
      LastRun(runs);
      assert IsBetween(lanes[n], n, low, f, runs[n]);
      LaneRows(lanes[n], n, low, f, runs[n]);
    }
  }

  lemma LastRun(runs: seq<seq<Row>>)
    requires |runs| > 0
    ensures var n := |runs| - 1; Taken(runs, Ends(runs)) == Taken(runs[..n], Ends(runs[..n])) + multiset(runs[n])
  {
    var n := |runs| - 1;
    assert Ends(runs)[..n] == Ends(runs[..n]) && runs[n][..|runs[n]|] == runs[n];
  }

  lemma LaneRows(lane: seq<Entry>, i: nat, low: Bound, f: nat, run: seq<Row>)
    requires IsBetween(lane, i, low, f, run)
    ensures multiset(Rows(lane[..Passed(lane, Excluded(f))], i)) == multiset(Rows(lane[..Passed(lane, low)], i)) + multiset(run)
  {
    var from, upto := Passed(lane, low), Passed(lane, Excluded(f));
    RowsSplit(lane, from, upto, i);
  }

  lemma {:induction false} FewerLeft(lanes: seq<seq<Entry>>, low: Bound, f: nat)
    requires forall i :: 0 <= i < |lanes| ==> Passed(lanes[i], low) <= Passed(lanes[i], Excluded(f))
    ensures Left(lanes, Excluded(f)) <= Left(lanes, low)
    ensures (exists i :: 0 <= i < |lanes| && Passed(lanes[i], low) < Passed(lanes[i], Excluded(f))) ==>
              Left(lanes, Excluded(f)) < Left(lanes, low)
  {
    if |lanes| > 0 {
      var n := |lanes| - 1;
      FewerLeft(lanes[..n], low, f);
      if i :| 0 <= i < |lanes| && Passed(lanes[i], low) < Passed(lanes[i], Excluded(f)) {
        if i < n { assert Passed(lanes[..n][i], low) < Passed(lanes[..n][i], Excluded(f)); }
      }
    }
  }

  lemma {:induction false} NothingPassed(lanes: seq<seq<Entry>>)
    ensures PassedRows(lanes, Unbounded) == multiset{}
  {
    if |lanes| > 0 {
      NothingPassed(lanes[..|lanes| - 1]);
    }
  }

  lemma {:induction false} AllPassed(lanes: seq<seq<Entry>>, low: Bound)
    requires forall i :: 0 <= i < |lanes| ==> Passed(lanes[i], low) == |lanes[i]|
    ensures PassedRows(lanes, low) == AllRows(lanes)
  {
    if |lanes| > 0 {
      var n := |lanes| - 1;
      AllPassed(lanes[..n], low);
      assert lanes[n][..|lanes[n]|] == lanes[n];
    }
  }

  // ---------------------------------------------------------------- one round

  function CursorOf(lane: seq<Entry>, low: Bound): Option<nat> {
    RangeWithCursor(lane, 0, low, CHUNK).1
  }

  /** The smallest cursor of the first `n` lanes, if any has one. */
  ghost predicate IsFrontier(lanes: seq<seq<Entry>>, low: Bound, n: nat, frontier: Option<nat>)
    requires n <= |lanes|
  {
    && (forall i :: 0 <= i < n && CursorOf(lanes[i], low).Some? ==>
          frontier.Some? && frontier.value <= CursorOf(lanes[i], low).value)
    && (frontier.Some? ==> exists i :: 0 <= i < n && CursorOf(lanes[i], low) == frontier)
  }

  /** Ask every lane for its next chunk. */
  method AskLanes(lanes: seq<seq<Entry>>, low: Bound) returns (perLane: seq<seq<Row>>, frontier: Option<nat>)
    ensures |perLane| == |lanes| && IsFrontier(lanes, low, |lanes|, frontier)
    ensures forall i :: 0 <= i < |lanes| ==> perLane[i] == RangeWithCursor(lanes[i], i, low, CHUNK).0
  {
    perLane, frontier := [], None;
    for i := 0 to |lanes|
      invariant |perLane| == i && IsFrontier(lanes, low, i, frontier)
      invariant forall j :: 0 <= j < i ==> perLane[j] == RangeWithCursor(lanes[j], j, low, CHUNK).0
    {
      var (rows, cursor) := RangeWithCursor(lanes[i], i, low, CHUNK);
      assert cursor == CursorOf(lanes[i], low);
      if cursor.Some? {
        frontier := if frontier.Some? && frontier.value <= cursor.value then frontier else cursor;
      }
      perLane := perLane + [rows];
    }
  }

  /** Cut every run at the frontier. */
  method CutAt(perLane: seq<seq<Row>>, f: nat) returns (runs: seq<seq<Row>>)
    ensures |runs| == |perLane|
    ensures forall i :: 0 <= i < |runs| ==> runs[i] == perLane[i][..PartitionPoint(perLane[i], f)]
  {
    runs := [];
    for i := 0 to |perLane|
      invariant |runs| == i && forall j :: 0 <= j < i ==> runs[j] == perLane[j][..PartitionPoint(perLane[j], f)]
    {
      runs := runs + [perLane[i][..PartitionPoint(perLane[i], f)]];
    }
  }

  /** The last key a walk examined is past the bound, and passing it passes the chunk. */
  lemma CursorIsPast(lane: seq<Entry>, low: Bound)
    requires IsLane(lane)
    ensures var c := CursorOf(lane, low);
            if c.Some? then !Within(c.value, low) && Passed(lane, low) < Passed(lane, Excluded(c.value))
            else Passed(lane, low) == |lane|
  {
    var from, to := Passed(lane, low), ChunkEnd(lane, low, CHUNK);
    if from < to {
      PassedSplits(lane, low, to - 1);
      PassedKey(lane, to);
    }
  }

  lemma FrontierIsPast(lanes: seq<seq<Entry>>, low: Bound, f: nat) returns (i: nat)
    requires AreLanes(lanes) && IsFrontier(lanes, low, |lanes|, Some(f))
    ensures !Within(f, low) && i < |lanes| && Passed(lanes[i], low) < Passed(lanes[i], Excluded(f))
  {
    i :| 0 <= i < |lanes| && CursorOf(lanes[i], low) == Some(f);
    assert IsLane(lanes[i]);
    CursorIsPast(lanes[i], low);
  }

  lemma CutsAreBetween(lanes: seq<seq<Entry>>, low: Bound, f: nat, runs: seq<seq<Row>>)
    requires AreLanes(lanes) && IsFrontier(lanes, low, |lanes|, Some(f)) && |runs| == |lanes|
    requires forall i :: 0 <= i < |lanes| ==>
               var rows := RangeWithCursor(lanes[i], i, low, CHUNK).0; runs[i] == rows[..PartitionPoint(rows, f)]
    ensures AreBetween(lanes, low, f, runs)
  {
    var _ := FrontierIsPast(lanes, low, f);
    forall i | 0 <= i < |lanes| ensures IsBetween(lanes[i], i, low, f, runs[i]) {
      assert IsLane(lanes[i]);
      LaneCut(lanes[i], i, low, f, runs[i]);
    }
  }

  lemma LaneCut(lane: seq<Entry>, i: nat, low: Bound, f: nat, run: seq<Row>)
    requires IsLane(lane) && !Within(f, low) && (CursorOf(lane, low).Some? ==> f <= CursorOf(lane, low).value)
    requires var rows := RangeWithCursor(lane, i, low, CHUNK).0; run == rows[..PartitionPoint(rows, f)]
    ensures IsBetween(lane, i, low, f, run)
  {
    CursorIsPast(lane, low);
    CutIsBetween(lane, i, low, CHUNK, f);
  }

  /** Rows between the bound and the frontier are past the one and not past the other. */
  lemma BetweenKeys(lane: seq<Entry>, i: nat, low: Bound, f: nat, run: seq<Row>)
    requires IsLane(lane) && IsBetween(lane, i, low, f, run)
    ensures Ascending(run)
    ensures forall j :: 0 <= j < |run| ==> run[j].lane == i && !Within(run[j].key, low) && run[j].key <= f
  {
    var from, upto := Passed(lane, low), Passed(lane, Excluded(f));
    var entries := lane[from..upto];
    RowsAscend(entries, i);
    forall j | 0 <= j < |run| ensures run[j].lane == i && !Within(run[j].key, low) && run[j].key <= f {
      RowsFrom(entries, i, j);
      var e :| 0 <= e < |entries| && entries[e].key == run[j].key;
      PassedSplits(lane, low, from + e);
      PassedSplits(lane, Excluded(f), from + e);
    }
  }

  lemma {:induction false} TakenFrom(runs: seq<seq<Row>>, r: Row) returns (i: nat, j: nat)
    requires r in Taken(runs, Ends(runs))
    ensures i < |runs| && j < |runs[i]| && runs[i][j] == r
  {
    var n := |runs| - 1;
    LastRun(runs);
    if r in runs[n] {
      i, j :| i == n && 0 <= j < |runs[n]| && runs[n][j] == r;
    } else {
      i, j := TakenFrom(runs[..n], r);
    }
  }

  /** What a round adds comes after what was emitted before it. */
  lemma RoundAscends(lanes: seq<seq<Entry>>, low: Bound, f: nat, runs: seq<seq<Row>>, out: seq<Row>, merged: seq<Row>)
    requires AreLanes(lanes) && AreBetween(lanes, low, f, runs) && Ascending(out) && Ascending(merged)
    requires multiset(merged) == Taken(runs, Ends(runs)) && !Within(f, low)
    requires forall p :: 0 <= p < |out| ==> Within(out[p].key, low)
    ensures Ascending(out + merged) && forall p :: 0 <= p < |out + merged| ==> (out + merged)[p].key <= f
  {
    forall q | 0 <= q < |merged| ensures !Within(merged[q].key, low) && merged[q].key <= f {
      assert merged[q] in multiset(merged);
      var i, j := TakenFrom(runs, merged[q]);
      assert IsLane(lanes[i]) && IsBetween(lanes[i], i, low, f, runs[i]);
      BetweenKeys(lanes[i], i, low, f, runs[i]);
    }
  }

  lemma BetweenAreRuns(lanes: seq<seq<Entry>>, low: Bound, f: nat, runs: seq<seq<Row>>)
    requires AreLanes(lanes) && AreBetween(lanes, low, f, runs)
    ensures AreRuns(runs)
  {
    forall i | 0 <= i < |runs| ensures Ascending(runs[i]) && forall j :: 0 <= j < |runs[i]| ==> runs[i][j].lane == i {
      assert IsLane(lanes[i]) && IsBetween(lanes[i], i, low, f, runs[i]);
      BetweenKeys(lanes[i], i, low, f, runs[i]);
    }
  }

  // ---------------------------------------------------------------- the merged drain

  ghost predicate Draining(lanes: seq<seq<Entry>>, low: Bound, out: seq<Row>) {
    && Ascending(out) && multiset(out) == PassedRows(lanes, low)
    && forall p :: 0 <= p < |out| ==> Within(out[p].key, low)
  }

  lemma RoundDrains(lanes: seq<seq<Entry>>, low: Bound, f: nat, runs: seq<seq<Row>>, out: seq<Row>, merged: seq<Row>)
    requires AreLanes(lanes) && Draining(lanes, low, out) && IsFrontier(lanes, low, |lanes|, Some(f))
    requires AreBetween(lanes, low, f, runs) && Ascending(merged) && multiset(merged) == Taken(runs, Ends(runs))
    ensures Draining(lanes, Excluded(f), out + merged) && Left(lanes, Excluded(f)) < Left(lanes, low)
  {
    var i := FrontierIsPast(lanes, low, f);
    RoundRows(lanes, low, f, runs);
    RoundAscends(lanes, low, f, runs, out, merged);
    forall l | 0 <= l < |lanes| ensures Passed(lanes[l], low) <= Passed(lanes[l], Excluded(f)) {
      assert IsBetween(lanes[l], l, low, f, runs[l]);
    }
    FewerLeft(lanes, low, f);
  }

  lemma NothingLeft(lanes: seq<seq<Entry>>, low: Bound)
    requires AreLanes(lanes) && IsFrontier(lanes, low, |lanes|, None)
    ensures PassedRows(lanes, low) == AllRows(lanes)
    ensures forall i :: 0 <= i < |lanes| ==> RangeWithCursor(lanes[i], i, low, CHUNK).0 == []
  {
    forall i | 0 <= i < |lanes|
      ensures Passed(lanes[i], low) == |lanes[i]| && RangeWithCursor(lanes[i], i, low, CHUNK).0 == []
    {
      assert IsLane(lanes[i]);
      CursorIsPast(lanes[i], low);
    }
    AllPassed(lanes, low);
  }

  lemma {:induction false} EmptyRuns(runs: seq<seq<Row>>)
    requires forall i :: 0 <= i < |runs| ==> runs[i] == []
    ensures Taken(runs, Ends(runs)) == multiset{}
  {
    TakenNone(runs, Ends(runs));
  }

  /** Every visible row of every lane is emitted once, in order across all rounds. */
  method DrainMerged(lanes: seq<seq<Entry>>) returns (total: nat, ghost out: seq<Row>)
    requires AreLanes(lanes)
    ensures total == |AllRows(lanes)|
    ensures |out| == total && Ascending(out) && multiset(out) == AllRows(lanes)
  {
    var low := Unbounded;
    total, out := 0, [];
    NothingPassed(lanes);
    while true
      invariant total == |out| && Draining(lanes, low, out)
      decreases Left(lanes, low)
    {
      var perLane, frontier := AskLanes(lanes, low);
      if frontier.Some? {
        perLane := CutAt(perLane, frontier.value);
        CutsAreBetween(lanes, low, frontier.value, perLane);
        BetweenAreRuns(lanes, low, frontier.value, perLane);
      } else {
        NothingLeft(lanes, low);
        EmptyRuns(perLane);
      }
      var count, merged := Merge(perLane);
      if frontier.None? {
        assert merged == [] by { assert |multiset(merged)| == |merged|; }
        assert |multiset(out)| == |out| && out + merged == out;
        return total + count, out + merged;
      }
      RoundDrains(lanes, low, frontier.value, perLane, out, merged);
      total, out := total + count, out + merged;
      low := Excluded(frontier.value);
    }
  }
}
