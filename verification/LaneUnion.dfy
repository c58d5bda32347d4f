/** Draining the lanes gives what draining one tree with the same entries gives. */
module LaneUnion {
  import opened FiniteSets
  import opened Lanes
  import opened LaneDrains

  /** The walk shows the key with the value. */
  ghost predicate Shows(lane: seq<Entry>, key: nat, value: nat) {
    exists j :: 0 <= j < |lane| && lane[j] == Entry(key, value, true)
  }

  ghost predicate SomeLaneShows(lanes: seq<seq<Entry>>, key: nat, value: nat) {
    exists i :: 0 <= i < |lanes| && Shows(lanes[i], key, value)
  }

  /** The tree shows what the lanes show. */
  ghost predicate IsUnion(lanes: seq<seq<Entry>>, tree: seq<Entry>) {
    IsLane(tree) && forall k: nat, v: nat :: Shows(tree, k, v) <==> SomeLaneShows(lanes, k, v)
  }

  /** No key is shown by two lanes. */
  ghost predicate KeysApart(lanes: seq<seq<Entry>>) {
    forall i, j, k: nat, v: nat, w: nat ::
      0 <= i < |lanes| && 0 <= j < |lanes| && Shows(lanes[i], k, v) && Shows(lanes[j], k, w) ==> i == j
  }

  lemma {:induction false} RowsShow(entries: seq<Entry>, lane: nat, r: Row)
    ensures r in Rows(entries, lane) <==> r.lane == lane && Shows(entries, r.key, r.value)
  {
    if |entries| > 0 {
      var n := |entries| - 1;
      RowsShow(entries[..n], lane, r);
      if Shows(entries[..n], r.key, r.value) {
        var j :| 0 <= j < n && entries[..n][j] == Entry(r.key, r.value, true);
        assert entries[j] == Entry(r.key, r.value, true);
      }
      if Shows(entries, r.key, r.value) && entries[n] != Entry(r.key, r.value, true) {
        var j :| 0 <= j < |entries| && entries[j] == Entry(r.key, r.value, true);
        assert entries[..n][j] == Entry(r.key, r.value, true);
      }
    }
  }

  lemma {:induction false} AllRowsShow(lanes: seq<seq<Entry>>, r: Row)
    ensures r in AllRows(lanes) <==> r.lane < |lanes| && Shows(lanes[r.lane], r.key, r.value)
  {
    if |lanes| > 0 {
      var n := |lanes| - 1;
      AllRowsShow(lanes[..n], r);
      RowsShow(lanes[n], n, r);
    }
  }

  ghost predicate KeysAscend(rows: seq<Row>) {
    forall i, j :: 0 <= i < j < |rows| ==> rows[i].key < rows[j].key
  }

  /** Rows in strict key order are determined by which they are. */
  lemma {:induction false} SameRows(a: seq<Row>, b: seq<Row>)
    requires KeysAscend(a) && KeysAscend(b) && forall r :: r in a <==> r in b
    ensures a == b
  {
    if |a| == 0 || |b| == 0 {
      Member(a);
      Member(b);
    } else {
      var n, m := |a| - 1, |b| - 1;
      assert a[n] in b && b[m] in a;
      forall r ensures r in a[..n] <==> r in b[..m] {
        Front(a, r);
        Front(b, r);
      }
      SameRows(a[..n], b[..m]);
      assert a == a[..n] + [a[n]] && b == b[..m] + [b[m]];
    }
  }

  lemma Member(a: seq<Row>)
    ensures a == [] || exists r :: r in a
  {
    if a != [] {
      assert a[0] in a;
    }
  }

  lemma Front(a: seq<Row>, r: Row)
    requires KeysAscend(a) && |a| > 0
    ensures r in a[..|a| - 1] <==> r in a && r != a[|a| - 1]
  {
  }

  function Untagged(rows: seq<Row>): (u: seq<Row>)
    ensures |u| == |rows| && forall i :: 0 <= i < |rows| ==> u[i] == rows[i].(lane := 0)
  {
    seq(|rows|, i requires 0 <= i < |rows| => rows[i].(lane := 0))
  }

  lemma OutShows(lanes: seq<seq<Entry>>, out: seq<Row>, p: nat)
    requires multiset(out) == AllRows(lanes) && p < |out|
    ensures out[p].lane < |lanes| && Shows(lanes[out[p].lane], out[p].key, out[p].value)
  {
    assert out[p] in multiset(out);
    AllRowsShow(lanes, out[p]);
  }

  lemma OutKeysAscend(lanes: seq<seq<Entry>>, out: seq<Row>)
    requires KeysApart(lanes) && Ascending(out) && multiset(out) == AllRows(lanes)
    ensures KeysAscend(Untagged(out))
  {
    forall i, j | 0 <= i < j < |out| ensures out[i].key < out[j].key {
      assert Before(out[i], out[j]);
      OutShows(lanes, out, i);
      OutShows(lanes, out, j);
    }
  }

  lemma TreeRowsAscend(tree: seq<Entry>)
    requires IsLane(tree)
    ensures KeysAscend(Rows(tree, 0))
  {
    RowsAscend(tree, 0);
    forall i, j | 0 <= i < j < |Rows(tree, 0)| ensures Rows(tree, 0)[i].key < Rows(tree, 0)[j].key {
      RowsFrom(tree, 0, i);
      RowsFrom(tree, 0, j);
      assert Before(Rows(tree, 0)[i], Rows(tree, 0)[j]);
    }
  }

  /** What the merged drain emits is, but for the lane, what the plain drain of the one
      tree emits: the same rows, in the same order, and so as many. */
  lemma MergedIsPlain(lanes: seq<seq<Entry>>, tree: seq<Entry>, out: seq<Row>)
    requires IsUnion(lanes, tree) && KeysApart(lanes)
    requires Ascending(out) && multiset(out) == AllRows(lanes)
    ensures Untagged(out) == Rows(tree, 0) && |out| == |Rows(tree, 0)|
  {
    OutKeysAscend(lanes, out);
    TreeRowsAscend(tree);
    forall r ensures r in Untagged(out) <==> r in Rows(tree, 0) {
      RowsShow(tree, 0, r);
      InUntagged(lanes, out, r);
    }
    SameRows(Untagged(out), Rows(tree, 0));
  }

  lemma InUntagged(lanes: seq<seq<Entry>>, out: seq<Row>, r: Row)
    requires multiset(out) == AllRows(lanes)
    ensures r in Untagged(out) <==> r.lane == 0 && SomeLaneShows(lanes, r.key, r.value)
  {
    if r in Untagged(out) {
      var p :| 0 <= p < |out| && Untagged(out)[p] == r;
      OutShows(lanes, out, p);
    }
    if r.lane == 0 && SomeLaneShows(lanes, r.key, r.value) {
      var i :| 0 <= i < |lanes| && Shows(lanes[i], r.key, r.value);
      AllRowsShow(lanes, r.(lane := i));
      assert r.(lane := i) in multiset(out);
      var p :| 0 <= p < |out| && out[p] == r.(lane := i);
      assert Untagged(out)[p] == r;
    }
  }

  // ---------------------------------------------------------------- when the counts agree

  /** The walk shows the key, whatever its value. */
  ghost predicate ShowsKey(lane: seq<Entry>, key: nat) {
    exists v: nat :: Shows(lane, key, v)
  }

  ghost predicate SomeLaneShowsKey(lanes: seq<seq<Entry>>, key: nat) {
    exists i :: 0 <= i < |lanes| && ShowsKey(lanes[i], key)
  }

  /** The tree shows the keys the lanes show. A key in several lanes may have a value in
      each; the tree has one of its own. */
  ghost predicate SameKeys(lanes: seq<seq<Entry>>, tree: seq<Entry>) {
    IsLane(tree) && forall k: nat :: ShowsKey(tree, k) <==> SomeLaneShowsKey(lanes, k)
  }

  function KeysOf(rows: seq<Row>): (ks: seq<nat>)
    ensures |ks| == |rows| && forall i :: 0 <= i < |rows| ==> ks[i] == rows[i].key
  {
    seq(|rows|, i requires 0 <= i < |rows| => rows[i].key)
  }

  lemma TreeKeys(tree: seq<Entry>, k: nat)
    ensures k in KeysOf(Rows(tree, 0)) <==> ShowsKey(tree, k)
  {
    var rows := Rows(tree, 0);
    if k in KeysOf(rows) {
      var p :| 0 <= p < |rows| && KeysOf(rows)[p] == k;
      assert rows[p] in rows;
      RowsShow(tree, 0, rows[p]);
    }
    if ShowsKey(tree, k) {
      var v: nat :| Shows(tree, k, v);
      RowsShow(tree, 0, Row(k, v, 0));
      var p :| 0 <= p < |rows| && rows[p] == Row(k, v, 0);
      assert KeysOf(rows)[p] == k;
    }
  }

  /** Where a lane's key is in what the drain emits. */
  lemma KeyAt(lanes: seq<seq<Entry>>, out: seq<Row>, i: nat, k: nat) returns (p: nat)
    requires multiset(out) == AllRows(lanes) && i < |lanes| && ShowsKey(lanes[i], k)
    ensures p < |out| && out[p].key == k && out[p].lane == i
  {
    var v: nat :| Shows(lanes[i], k, v);
    AllRowsShow(lanes, Row(k, v, i));
    assert Row(k, v, i) in multiset(out);
    p :| 0 <= p < |out| && out[p] == Row(k, v, i);
  }

  lemma OutKeys(lanes: seq<seq<Entry>>, out: seq<Row>, k: nat)
    requires multiset(out) == AllRows(lanes)
    ensures k in KeysOf(out) <==> SomeLaneShowsKey(lanes, k)
  {
    if k in KeysOf(out) {
      var p :| 0 <= p < |out| && KeysOf(out)[p] == k;
      OutShows(lanes, out, p);
      assert ShowsKey(lanes[out[p].lane], k);
    }
    if SomeLaneShowsKey(lanes, k) {
      var i :| 0 <= i < |lanes| && ShowsKey(lanes[i], k);
      var p := KeyAt(lanes, out, i, k);
      assert KeysOf(out)[p] == k;
    }
  }

  /** The merged drain emits each key once exactly when no key is shown by two lanes. */
  lemma KeysOnceIffApart(lanes: seq<seq<Entry>>, out: seq<Row>)
    requires Ascending(out) && multiset(out) == AllRows(lanes)
    ensures |Elements(KeysOf(out))| == |out| <==> KeysApart(lanes)
  {
    if KeysApart(lanes) {
      OutKeysAscend(lanes, out);
      forall i, j | 0 <= i < j < |out| ensures KeysOf(out)[i] != KeysOf(out)[j] {
        assert Untagged(out)[i].key < Untagged(out)[j].key;
      }
      EachOnce(KeysOf(out));
    } else {
      var i, j, k: nat, v: nat, w: nat :| 0 <= i < |lanes| && 0 <= j < |lanes| && Shows(lanes[i], k, v)
                                          && Shows(lanes[j], k, w) && i != j;
      assert ShowsKey(lanes[i], k) && ShowsKey(lanes[j], k);
      var p := KeyAt(lanes, out, i, k);
      var q := KeyAt(lanes, out, j, k);
      SomeTwice(KeysOf(out), if p < q then p else q, if p < q then q else p);
    }
  }

  /** The drains count the same exactly when no key is shown by two lanes. */
  lemma CountsAgreeIffKeysApart(lanes: seq<seq<Entry>>, tree: seq<Entry>, out: seq<Row>)
    requires SameKeys(lanes, tree) && Ascending(out) && multiset(out) == AllRows(lanes)
    ensures |out| == |Rows(tree, 0)| <==> KeysApart(lanes)
  {
    var rows := Rows(tree, 0);
    TreeRowsAscend(tree);
    EachOnce(KeysOf(rows));
    forall k: nat ensures k in KeysOf(out) <==> k in KeysOf(rows) {
      TreeKeys(tree, k);
      OutKeys(lanes, out, k);
    }
    assert Elements(KeysOf(out)) == Elements(KeysOf(rows));
    KeysOnceIffApart(lanes, out);
  }

  /** Draining the lanes and draining one tree with the same keys give the same total
      exactly when no key is shown by two lanes. */
  method DrainsAgree(lanes: seq<seq<Entry>>, tree: seq<Entry>) returns (merged: nat, plain: nat)
    requires AreLanes(lanes) && SameKeys(lanes, tree)
    ensures plain == |Rows(tree, 0)| && (merged == plain <==> KeysApart(lanes))
  {
    ghost var out, walk;
    merged, out := DrainMerged(lanes);
    plain, walk := DrainPlain(tree);
    CountsAgreeIffKeysApart(lanes, tree, out);
  }

  lemma OneEntry(e: Entry, lane: nat)
    requires e.visible
    ensures Rows([e], lane) == [Row(e.key, e.value, lane)]
    ensures forall k: nat :: ShowsKey([e], k) <==> k == e.key
  {
    assert [e][..0] == [];
    assert [e][0] == Entry(e.key, e.value, true);
    assert Shows([e], e.key, e.value);
  }

  lemma TwoLanes(a: seq<Entry>, b: seq<Entry>)
    ensures AllRows([a, b]) == multiset(Rows(a, 0)) + multiset(Rows(b, 1))
    ensures forall k: nat :: SomeLaneShowsKey([a, b], k) <==> ShowsKey(a, k) || ShowsKey(b, k)
  {
    var none: seq<seq<Entry>> := [];
    assert [a, b][..1] == [a] && [a][..0] == none;
    assert AllRows([a]) == AllRows(none) + multiset(Rows(a, 0));
    forall k: nat ensures SomeLaneShowsKey([a, b], k) <==> ShowsKey(a, k) || ShowsKey(b, k) {
      assert [a, b][0] == a && [a, b][1] == b;
    }
  }

  /** One key with a value in each of two lanes: the lanes drain to two rows, a tree with
      that key to one. */
  lemma SharedKeyDiffers()
    ensures var lanes, tree := [[Entry(1, 7, true)], [Entry(1, 8, true)]], [Entry(1, 8, true)];
            AreLanes(lanes) && SameKeys(lanes, tree) && |AllRows(lanes)| == 2 && |Rows(tree, 0)| == 1
  {
    var a, b := Entry(1, 7, true), Entry(1, 8, true);
    OneEntry(a, 0);
    OneEntry(b, 0);
    OneEntry(b, 1);
    TwoLanes([a], [b]);
  }
}
