/** A store split into lanes, drained in chunks and merged up to a frontier, against the
    plain drain of one tree. */
module Lanes {
  import opened Options

  /** One entry of a tree's walk; tombstones and entries of other epochs are examined but
      not visible at the pin. */
  datatype Entry = Entry(key: nat, value: nat, visible: bool)

  /** A visible row and the lane it came from. */
  datatype Row = Row(key: nat, value: nat, lane: nat)

  datatype Bound = Unbounded | Excluded(key: nat)

  ghost predicate IsLane(lane: seq<Entry>) {
    forall i, j :: 0 <= i < j < |lane| ==> lane[i].key < lane[j].key
  }

  ghost predicate AreLanes(lanes: seq<seq<Entry>>) {
    forall i :: 0 <= i < |lanes| ==> IsLane(lanes[i])
  }

  predicate Within(key: nat, low: Bound) {
    low.Excluded? && key <= low.key
  }

  /** How many entries of the lane the bound has passed. */
  function Passed(lane: seq<Entry>, low: Bound): (n: nat)
    ensures n <= |lane|
    ensures forall i :: 0 <= i < n ==> Within(lane[i].key, low)
    ensures n < |lane| ==> !Within(lane[n].key, low)
  {
    if |lane| == 0 || !Within(lane[0].key, low) then 0 else 1 + Passed(lane[1..], low)
  }

  lemma PassedSplits(lane: seq<Entry>, low: Bound, i: nat)
    requires IsLane(lane) && i < |lane|
    ensures i < Passed(lane, low) <==> Within(lane[i].key, low)
  {
  }

  /** The visible rows of a walk. */
  function Rows(entries: seq<Entry>, lane: nat): seq<Row> {
    if |entries| == 0 then []
    else
      var n := |entries| - 1;
      Rows(entries[..n], lane) + if entries[n].visible then [Row(entries[n].key, entries[n].value, lane)] else []
  }

  lemma {:induction false} RowsAppend(a: seq<Entry>, b: seq<Entry>, lane: nat)
    ensures Rows(a + b, lane) == Rows(a, lane) + Rows(b, lane)
  {
    if |b| == 0 {
      assert a + b == a;
    } else {
      var n := |b| - 1;
      assert (a + b)[..|a| + n] == a + b[..n];
      RowsAppend(a, b[..n], lane);
    }
  }

  /** Rows come from entries. */
  lemma {:induction false} RowsFrom(entries: seq<Entry>, lane: nat, i: nat)
    requires i < |Rows(entries, lane)|
    ensures Rows(entries, lane)[i].lane == lane
    ensures exists j :: 0 <= j < |entries| && entries[j].key == Rows(entries, lane)[i].key
  {
    var n := |entries| - 1;
    if i < |Rows(entries[..n], lane)| {
      RowsFrom(entries[..n], lane, i);
      var j :| 0 <= j < n && entries[..n][j].key == Rows(entries[..n], lane)[i].key;
      assert entries[j].key == Rows(entries, lane)[i].key;
    }
  }

  /** A row is there exactly when its entry is, and is visible. */
  lemma {:induction false} InRows(entries: seq<Entry>, lane: nat, row: Row)
    ensures row in Rows(entries, lane) <==> row.lane == lane && Entry(row.key, row.value, true) in entries
  {
    if |entries| > 0 {
      var n := |entries| - 1;
      InRows(entries[..n], lane, row);
      assert entries == entries[..n] + [entries[n]];
    }
  }

  predicate Before(r: Row, s: Row) {
    r.key < s.key || (r.key == s.key && r.lane < s.lane)
  }

  /** In order of key, and of lane where keys are equal; no row twice. */
  ghost predicate Ascending(rows: seq<Row>) {
    forall i, j :: 0 <= i < j < |rows| ==> Before(rows[i], rows[j])
  }

  lemma {:induction false} RowsAscend(entries: seq<Entry>, lane: nat)
    requires IsLane(entries)
    ensures Ascending(Rows(entries, lane))
  {
    if |entries| > 0 {
      var n := |entries| - 1;
      RowsAscend(entries[..n], lane);
      forall i | 0 <= i < |Rows(entries[..n], lane)| ensures Rows(entries[..n], lane)[i].key < entries[n].key {
        RowsFrom(entries[..n], lane, i);
      }
    }
  }

  // ---------------------------------------------------------------- one chunk of one lane

  /** The visible rows of the next `limit` entries past the bound, and the last key
      examined. */
  function RangeWithCursor(entries: seq<Entry>, lane: nat, low: Bound, limit: nat): (seq<Row>, Option<nat>) {
    var from, to := Passed(entries, low), ChunkEnd(entries, low, limit);
    (Rows(entries[from..to], lane), if from == to then None else Some(entries[to - 1].key))
  }

  /** Entry `i` is past the bound, and is one of the first `limit` that are. */
  predicate Examined(entries: seq<Entry>, low: Bound, limit: nat, i: nat)
    requires i < |entries|
  {
    !Within(entries[i].key, low) && (i < limit || Within(entries[i - limit].key, low))
  }

  /** A chunk is the next `limit` entries past the bound, or all there are, and the cursor is
      the last key among them. */
  lemma ChunkIsNext(entries: seq<Entry>, lane: nat, low: Bound, limit: nat)
    requires IsLane(entries)
    ensures var (rows, cursor) := RangeWithCursor(entries, lane, low, limit);
            && (forall i: nat :: i < |entries| && entries[i].visible ==>
                  (Examined(entries, low, limit, i) <==> Row(entries[i].key, entries[i].value, lane) in rows))
            && (cursor.None? <==> forall i: nat :: i < |entries| ==> !Examined(entries, low, limit, i))
            && (cursor.Some? ==> exists i: nat :: i < |entries| && Examined(entries, low, limit, i)
                                   && entries[i].key == cursor.value
                                   && forall j: nat :: j < |entries| && Examined(entries, low, limit, j) ==> j <= i)
  {
    var from, to := Passed(entries, low), ChunkEnd(entries, low, limit);
    forall i: nat | i < |entries| ensures Examined(entries, low, limit, i) <==> from <= i < to {
      PassedSplits(entries, low, i);
      if i >= limit { PassedSplits(entries, low, i - limit); }
    }
    forall i: nat | i < |entries| && entries[i].visible
      ensures from <= i < to <==> Row(entries[i].key, entries[i].value, lane) in Rows(entries[from..to], lane)
    {
      RowInChunk(entries, from, to, lane, i);
    }
    if from < to {
      assert Examined(entries, low, limit, to - 1);
    }
  }

  lemma RowInChunk(entries: seq<Entry>, from: nat, to: nat, lane: nat, i: nat)
    requires IsLane(entries) && from <= to <= |entries| && i < |entries| && entries[i].visible
    ensures from <= i < to <==> Row(entries[i].key, entries[i].value, lane) in Rows(entries[from..to], lane)
  {
    var row := Row(entries[i].key, entries[i].value, lane);
    InRows(entries[from..to], lane, row);
    if from <= i < to {
      assert entries[from..to][i - from] == entries[i];
    }
  }

  /** How many rows of an ordered run are not past the frontier. */
  function PartitionPoint(rows: seq<Row>, f: nat): (n: nat)
    ensures n <= |rows|
    ensures forall i :: 0 <= i < n ==> rows[i].key <= f
    ensures n < |rows| ==> rows[n].key > f
  {
    if |rows| == 0 || rows[0].key > f then 0 else 1 + PartitionPoint(rows[1..], f)
  }

  /** Where a chunk ends. */
  function ChunkEnd(entries: seq<Entry>, low: Bound, limit: nat): (to: nat)
    ensures Passed(entries, low) <= to <= |entries|
  {
    var from := Passed(entries, low);
    if from + limit < |entries| then from + limit else |entries|
  }

  /** A frontier not past the cursor is reached within the chunk. */
  lemma FrontierInChunk(entries: seq<Entry>, low: Bound, limit: nat, f: nat)
    requires IsLane(entries) && !Within(f, low)
    requires var from, to := Passed(entries, low), ChunkEnd(entries, low, limit);
             if from < to then f <= entries[to - 1].key else from == |entries|
    ensures Passed(entries, low) <= Passed(entries, Excluded(f)) <= ChunkEnd(entries, low, limit)
  {
    var from, to := Passed(entries, low), ChunkEnd(entries, low, limit);
    if from > 0 { PassedSplits(entries, Excluded(f), from - 1); }
    if to < |entries| {
      assert entries[to - 1].key < entries[to].key;
      PassedSplits(entries, Excluded(f), to);
    }
  }

  lemma CutAfter(first: seq<Row>, rest: seq<Row>, f: nat)
    requires forall i :: 0 <= i < |first| ==> first[i].key <= f
    requires forall i :: 0 <= i < |rest| ==> rest[i].key > f
    ensures PartitionPoint(first + rest, f) == |first|
  {
    var rows := first + rest;
    assert forall i :: 0 <= i < |rows| ==> (rows[i].key <= f <==> i < |first|);
    assert |rest| > 0 ==> rows[|first|].key > f;
  }

  lemma KeptAndCut(entries: seq<Entry>, lane: nat, from: nat, to: nat, f: nat)
    requires IsLane(entries) && from <= Passed(entries, Excluded(f)) <= to <= |entries|
    ensures var rows, upto := Rows(entries[from..to], lane), Passed(entries, Excluded(f));
            rows[..PartitionPoint(rows, f)] == Rows(entries[from..upto], lane)
  {
    var upto := Passed(entries, Excluded(f));
    var kept, rest := Rows(entries[from..upto], lane), Rows(entries[upto..to], lane);
    assert entries[from..to] == entries[from..upto] + entries[upto..to];
    RowsAppend(entries[from..upto], entries[upto..to], lane);
    forall i | 0 <= i < |kept| ensures kept[i].key <= f { EarlierRows(entries, from, upto, lane, f, i); }
    forall i | 0 <= i < |rest| ensures rest[i].key > f { LaterRows(entries, upto, to, lane, f, i); }
    CutAfter(kept, rest, f);
  }

  /** Cutting a chunk at a frontier not past its cursor leaves exactly the lane's rows
      between the bound and the frontier. */
  lemma CutIsBetween(entries: seq<Entry>, lane: nat, low: Bound, limit: nat, f: nat)
    requires IsLane(entries) && !Within(f, low)
    requires var from, to := Passed(entries, low), ChunkEnd(entries, low, limit);
             if from < to then f <= entries[to - 1].key else from == |entries|
    ensures var rows := Rows(entries[Passed(entries, low)..ChunkEnd(entries, low, limit)], lane);
            var from, upto := Passed(entries, low), Passed(entries, Excluded(f));
            from <= upto && rows[..PartitionPoint(rows, f)] == Rows(entries[from..upto], lane)
  {
    FrontierInChunk(entries, low, limit, f);
    KeptAndCut(entries, lane, Passed(entries, low), ChunkEnd(entries, low, limit), f);
  }

  lemma EarlierRows(entries: seq<Entry>, from: nat, upto: nat, lane: nat, f: nat, i: nat)
    requires upto == Passed(entries, Excluded(f)) && from <= upto && i < |Rows(entries[from..upto], lane)|
    ensures Rows(entries[from..upto], lane)[i].key <= f
  {
    var kept := entries[from..upto];
    RowsFrom(kept, lane, i);
    var j :| 0 <= j < |kept| && kept[j].key == Rows(kept, lane)[i].key;
    assert kept[j] == entries[from + j];
  }

  lemma LaterRows(entries: seq<Entry>, upto: nat, to: nat, lane: nat, f: nat, i: nat)
    requires IsLane(entries) && upto == Passed(entries, Excluded(f)) && upto <= to <= |entries|
    requires i < |Rows(entries[upto..to], lane)|
    ensures Rows(entries[upto..to], lane)[i].key > f
  {
    var cut := entries[upto..to];
    RowsFrom(cut, lane, i);
    var j :| 0 <= j < |cut| && cut[j].key == Rows(cut, lane)[i].key;
    PassedSplits(entries, Excluded(f), upto + j);
  }

  // ---------------------------------------------------------------- merging ordered runs

  ghost predicate AreRuns(runs: seq<seq<Row>>) {
    forall i :: 0 <= i < |runs| ==> Ascending(runs[i]) && forall j :: 0 <= j < |runs[i]| ==> runs[i][j].lane == i
  }

  ghost predicate AreIndices(runs: seq<seq<Row>>, idx: seq<nat>) {
    |idx| == |runs| && forall i :: 0 <= i < |runs| ==> idx[i] <= |runs[i]|
  }

  /** The rows before the indices. */
  ghost function Taken(runs: seq<seq<Row>>, idx: seq<nat>): multiset<Row>
    requires AreIndices(runs, idx)
  {
    if |runs| == 0 then multiset{}
    else
      var n := |runs| - 1;
      Taken(runs[..n], idx[..n]) + multiset(runs[n][..idx[n]])
  }

  lemma {:induction false} TakeOne(runs: seq<seq<Row>>, idx: seq<nat>, i: nat)
    requires AreIndices(runs, idx) && i < |runs| && idx[i] < |runs[i]|
    ensures Taken(runs, idx[i := idx[i] + 1]) == Taken(runs, idx) + multiset{runs[i][idx[i]]}
  {
    var n := |runs| - 1;
    var after := idx[i := idx[i] + 1];
    if i == n {
      assert after[..n] == idx[..n];
      assert runs[n][..idx[n] + 1] == runs[n][..idx[n]] + [runs[n][idx[n]]];
    } else {
      assert after[..n] == idx[..n][i := idx[i] + 1];
      TakeOne(runs[..n], idx[..n], i);
    }
  }

  lemma {:induction false} TakenNone(runs: seq<seq<Row>>, idx: seq<nat>)
    requires AreIndices(runs, idx) && forall i :: 0 <= i < |idx| ==> idx[i] == 0
    ensures Taken(runs, idx) == multiset{}
  {
    if |runs| > 0 {
      TakenNone(runs[..|runs| - 1], idx[..|runs| - 1]);
    }
  }

  function Ends(runs: seq<seq<Row>>): (e: seq<nat>)
    ensures |e| == |runs| && forall i :: 0 <= i < |runs| ==> e[i] == |runs[i]|
  {
    seq(|runs|, i requires 0 <= i < |runs| => |runs[i]|)
  }

  function Remaining(runs: seq<seq<Row>>, idx: seq<nat>): nat
    requires AreIndices(runs, idx)
  {
    if |runs| == 0 then 0
    else Remaining(runs[..|runs| - 1], idx[..|runs| - 1]) + |runs[|runs| - 1]| - idx[|runs| - 1]
  }

  lemma {:induction false} OneLess(runs: seq<seq<Row>>, idx: seq<nat>, i: nat)
    requires AreIndices(runs, idx) && i < |runs| && idx[i] < |runs[i]|
    ensures Remaining(runs, idx[i := idx[i] + 1]) == Remaining(runs, idx) - 1
  {
    var n := |runs| - 1;
    if i == n {
      assert idx[i := idx[i] + 1][..n] == idx[..n];
    } else {
      assert idx[i := idx[i] + 1][..n] == idx[..n][i := idx[i] + 1];
      OneLess(runs[..n], idx[..n], i);
    }
  }

  /** The next row of a run, as the heap holds it. */
  datatype Head = Head(key: nat, lane: nat)

  /** What the heap holds: the next row of each run that has one, by key and lane. */
  ghost predicate IsHeap(runs: seq<seq<Row>>, idx: seq<nat>, heap: set<Head>)
    requires AreIndices(runs, idx)
  {
    forall h :: h in heap <==> IsNext(runs, idx, h)
  }

  ghost predicate IsNext(runs: seq<seq<Row>>, idx: seq<nat>, h: Head)
    requires AreIndices(runs, idx)
  {
    h.lane < |runs| && idx[h.lane] < |runs[h.lane]| && runs[h.lane][idx[h.lane]].key == h.key
  }

  predicate NotAfter(a: Head, b: Head) {
    a.key < b.key || (a.key == b.key && a.lane <= b.lane)
  }

  lemma {:induction false} SomeFirst(heap: set<Head>)
    requires heap != {}
    ensures exists a :: a in heap && forall b :: b in heap ==> NotAfter(a, b)
  {
    var x :| x in heap;
    if heap == {x} {
      assert forall b :: b in heap ==> NotAfter(x, b);
    } else {
      var rest := heap - {x};
      assert rest != {} by { assert heap == rest + {x}; }
      SomeFirst(rest);
      var y :| y in rest && forall b :: b in rest ==> NotAfter(y, b);
      var a := if NotAfter(x, y) then x else y;
      assert forall b :: b in heap ==> NotAfter(a, b);
    }
  }

  /** Take the first of the heap. */
  method Pop(heap: set<Head>) returns (a: Head)
    requires heap != {}
    ensures a in heap && forall b :: b in heap ==> NotAfter(a, b)
  {
    SomeFirst(heap);
    a :| a in heap && forall b :: b in heap ==> NotAfter(a, b);
  }

  /** Every row taken comes before every row left. */
  ghost predicate TakenFirst(runs: seq<seq<Row>>, idx: seq<nat>, out: seq<Row>)
    requires AreIndices(runs, idx)
  {
    forall p, i, j :: 0 <= p < |out| && 0 <= i < |runs| && idx[i] <= j < |runs[i]| ==> Before(out[p], runs[i][j])
  }

  /** The first of the heap comes before every other row left. */
  lemma FirstIsFirst(runs: seq<seq<Row>>, idx: seq<nat>, heap: set<Head>, a: Head, i: nat, j: nat)
    requires AreRuns(runs) && AreIndices(runs, idx) && IsHeap(runs, idx, heap) && a in heap
    requires forall b :: b in heap ==> NotAfter(a, b)
    requires i < |runs| && idx[i] <= j < |runs[i]| && (i != a.lane || j != idx[i])
    ensures IsNext(runs, idx, a) && Before(runs[a.lane][idx[a.lane]], runs[i][j])
  {
    assert IsNext(runs, idx, a);
    assert IsNext(runs, idx, Head(runs[i][idx[i]].key, i));
    assert Head(runs[i][idx[i]].key, i) in heap;
    if j > idx[i] { assert Before(runs[i][idx[i]], runs[i][j]); }
  }

  lemma HeapStep(runs: seq<seq<Row>>, idx: seq<nat>, heap: set<Head>, a: Head, after: set<Head>)
    requires AreIndices(runs, idx) && IsHeap(runs, idx, heap) && a in heap && IsNext(runs, idx, a)
    requires var n := idx[a.lane] + 1;
             after == heap - {a} + if n < |runs[a.lane]| then {Head(runs[a.lane][n].key, a.lane)} else {}
    ensures AreIndices(runs, idx[a.lane := idx[a.lane] + 1]) && IsHeap(runs, idx[a.lane := idx[a.lane] + 1], after)
  {
    var next := idx[a.lane := idx[a.lane] + 1];
    forall h ensures h in after <==> IsNext(runs, next, h) {
      assert h in heap <==> IsNext(runs, idx, h);
    }
  }

  ghost predicate Merging(runs: seq<seq<Row>>, idx: seq<nat>, out: seq<Row>) {
    AreIndices(runs, idx) && Ascending(out) && multiset(out) == Taken(runs, idx) && TakenFirst(runs, idx, out)
  }

  lemma MergeStarts(runs: seq<seq<Row>>, idx: seq<nat>)
    requires AreIndices(runs, idx) && forall i :: 0 <= i < |idx| ==> idx[i] == 0
    ensures Merging(runs, idx, [])
  {
    TakenNone(runs, idx);
  }

  lemma MergeStep(runs: seq<seq<Row>>, idx: seq<nat>, heap: set<Head>, out: seq<Row>, a: Head)
    requires AreRuns(runs) && Merging(runs, idx, out) && IsHeap(runs, idx, heap) && a in heap
    requires forall b :: b in heap ==> NotAfter(a, b)
    ensures IsNext(runs, idx, a)
    ensures Merging(runs, idx[a.lane := idx[a.lane] + 1], out + [runs[a.lane][idx[a.lane]]])
  {
    assert IsNext(runs, idx, a);
    TakeOne(runs, idx, a.lane);
    StepOrder(runs, idx, heap, out, a);
  }

  /** What is taken next comes after what is out and before what is left. */
  lemma StepOrder(runs: seq<seq<Row>>, idx: seq<nat>, heap: set<Head>, out: seq<Row>, a: Head)
    requires AreRuns(runs) && AreIndices(runs, idx) && IsHeap(runs, idx, heap) && a in heap && IsNext(runs, idx, a)
    requires Ascending(out) && TakenFirst(runs, idx, out) && forall b :: b in heap ==> NotAfter(a, b)
    ensures var row, next := runs[a.lane][idx[a.lane]], idx[a.lane := idx[a.lane] + 1];
            Ascending(out + [row]) && AreIndices(runs, next) && TakenFirst(runs, next, out + [row])
  {
    var i := a.lane;
    var row := runs[i][idx[i]];
    forall p | 0 <= p < |out| ensures Before(out[p], row) { }
    forall l, j | 0 <= l < |runs| && idx[l] <= j < |runs[l]| && (l != i || j != idx[l]) ensures Before(row, runs[l][j]) {
      FirstIsFirst(runs, idx, heap, a, l, j);
    }
  }

  lemma MergeEnds(runs: seq<seq<Row>>, idx: seq<nat>)
    requires AreIndices(runs, idx) && IsHeap(runs, idx, {})
    ensures idx == Ends(runs)
  {
    forall i | 0 <= i < |runs| ensures idx[i] == |runs[i]| {
      assert idx[i] < |runs[i]| ==> IsNext(runs, idx, Head(runs[i][idx[i]].key, i));
    }
  }

  method Merge(runs: seq<seq<Row>>) returns (total: nat, ghost out: seq<Row>)
    requires AreRuns(runs)
    ensures total == |Taken(runs, Ends(runs))|
    ensures |out| == total && Ascending(out) && multiset(out) == Taken(runs, Ends(runs))
  {
    var idx: seq<nat> := seq(|runs|, _ => 0);
    var heap: set<Head> := {};
    for i := 0 to |runs|
      invariant forall h :: h in heap <==> h.lane < i && IsNext(runs, idx, h)
    {
      if |runs[i]| > 0 {
        heap := heap + {Head(runs[i][0].key, i)};
      }
    }
    total, out := 0, [];
    MergeStarts(runs, idx);
    while heap != {}
      invariant Merging(runs, idx, out) && IsHeap(runs, idx, heap) && total == |out|
      decreases if AreIndices(runs, idx) then Remaining(runs, idx) else 0
    {
      var a := Pop(heap);
      var i := a.lane;
      MergeStep(runs, idx, heap, out, a);
      OneLess(runs, idx, i);
      total := total + 1;
      out := out + [runs[i][idx[i]]];
      ghost var before, was := heap, idx;
      idx := idx[i := idx[i] + 1];
      heap := heap - {a};
      if idx[i] < |runs[i]| {
        heap := heap + {Head(runs[i][idx[i]].key, i)};
      }
      HeapStep(runs, was, before, a, heap);
    }
    MergeEnds(runs, idx);
    assert |multiset(out)| == |out|;
  }
}
