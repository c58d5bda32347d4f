/** A table of bytes scored against the ceiling, in the field of the tables. */
module TapBytes {
  import opened Gf256
  import opened TapSearch
  import opened TapScores

  /** The share of weight-`t` losses that a table recovers, next to the share that any
      table could. */
  method Examine(taps: seq<Byte>, t: nat, g: Geometry) returns (score: real, bound: real)
    requires |taps| == TAPS_LEN && g.step > 0 && t <= |Ids(g)|
    ensures 0.0 <= score <= bound <= 1.0
    ensures exists log, exp, reps :: IsScoreOf(log, exp, reps, taps, t, g, score, bound)
  {
    var log, exp := BuildTables();
    var k := TableField(log[..], exp[..]);
    TablesMakeField(log[..], exp[..]);
    var reps := Repairs(g);
    ghost var visited;
    bound, visited := BoundAt(reps, t, g);
    score, visited := ScoreAt(k, taps, reps, t, g);
    ScoreAtMostBound(k, taps, reps, t, g);
    assert IsScoreOf(log[..], exp[..], reps, taps, t, g, score, bound);
  }

  /** The score and the bound are those of the geometry's repairs, in the field of the
      tables. */
  ghost predicate IsScoreOf(log: seq<nat>, exp: seq<Byte>, reps: seq<Repair>, taps: seq<Byte>, t: nat, g: Geometry,
                            score: real, bound: real)
  {
    && t <= |Ids(g)| && AreTables(log, exp) && AreRepairs(g, reps)
    && score == Score(TableField(log, exp), taps, reps, t, g) && bound == Bound(reps, t, g)
  }
}
