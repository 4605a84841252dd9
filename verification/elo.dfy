/** The Elo rating engine of `create_elo_ratings`: one left-to-right pass in
    `tourney_date` order over a map from player to rating. Every row emits
    both players' ratings BEFORE the row is applied, then updates them.

    Dafny has no real exponentiation, so `10 ** x` is a parameter `pow10`
    that is only required to satisfy `Pow10Laws`: positive, 1 at 0, and
    `10 ** x * 10 ** -x == 1`. Every property below holds for any such
    function, the real exponential included. */
module Elo {
  import opened Matches

  const InitialRating: real := 1500.0
  const KFactor: real := 32.0

  const P1EloColumn: string := "P1_elo"
  const P2EloColumn: string := "P2_elo"
  const EloDiffColumn: string := "elo_diff"

  ghost predicate Pow10Laws(pow10: real -> real) {
    && (forall x :: pow10(x) > 0.0)
    && pow10(0.0) == 1.0
    && (forall x, y :: x + y == 0.0 ==> pow10(x) * pow10(y) == 1.0)
  }

  /** Expected score of a player rated `r1` against one rated `r2`:
      `1 / (1 + 10 ** ((r2 - r1) / 400))`. */
  function Expected(pow10: real -> real, r1: real, r2: real): (e: real)
    requires Pow10Laws(pow10)
    ensures 0.0 < e < 1.0
    ensures r1 == r2 ==> e == 0.5
  {
    var p := pow10((r2 - r1) / 400.0);
    assert 1.0 + p > 1.0;
    1.0 / (1.0 + p)
  }

  /** The two players' expected scores sum to one. */
  lemma ExpectedComplement(pow10: real -> real, a: real, b: real)
    requires Pow10Laws(pow10)
    ensures Expected(pow10, a, b) + Expected(pow10, b, a) == 1.0
  {
    var x := (b - a) / 400.0;
    assert (a - b) / 400.0 == -x;
    var p := pow10(x);
    var q := pow10(-x);
    assert q * p == 1.0;
    assert Expected(pow10, a, b) == 1.0 / (1.0 + p);
    assert Expected(pow10, b, a) == 1.0 / (1.0 + q);
    assert (1.0 + p) * (1.0 + q) == 2.0 + p + q;
    calc {
      1.0 / (1.0 + p) + 1.0 / (1.0 + q);
      ((1.0 + q) + (1.0 + p)) / ((1.0 + p) * (1.0 + q));
      1.0;
    }
  }

  type Ratings = map<string, real>

  /** `elo_ratings.get(p, initial_rating)`. */
  function Rating(st: Ratings, p: string): real {
    if p in st then st[p] else InitialRating
  }

  /** The rating update of one row: each player moves by `K * (actual -
      expected)`, P1 first, then P2. */
  function EloUpdate(pow10: real -> real, st: Ratings, r: Row): (st': Ratings)
    requires Pow10Laws(pow10)
    ensures st'.Keys == st.Keys + {r.p1, r.p2}
    ensures forall q :: q != r.p1 && q != r.p2 ==> Rating(st', q) == Rating(st, q)
    ensures r.p1 != r.p2 ==>
      Rating(st', r.p1) + Rating(st', r.p2) == Rating(st, r.p1) + Rating(st, r.p2)
    ensures r.p1 != r.p2 ==>
      && Rating(st', Winner(r)) > Rating(st, Winner(r))
      && Rating(st', Loser(r)) < Rating(st, Loser(r))
  {
    var r1 := Rating(st, r.p1);
    var r2 := Rating(st, r.p2);
    var e1 := Expected(pow10, r1, r2);
    var e2 := 1.0 - e1;
    var a1 := if r.result == 1 then 1.0 else 0.0;
    var a2 := 1.0 - a1;
    st[r.p1 := r1 + KFactor * (a1 - e1)][r.p2 := r2 + KFactor * (a2 - e2)]
  }

  /** Reference definition: the ratings once the rows of `rows` have been
      applied in order, starting from nobody rated. */
  function RatingsAfter(pow10: real -> real, rows: seq<Row>): Ratings
    requires Pow10Laws(pow10)
    decreases |rows|
  {
    if rows == [] then map[]
    else
      var prev := rows[..|rows| - 1];
      EloUpdate(pow10, RatingsAfter(pow10, prev), rows[|rows| - 1])
  }

  /** Exactly the players met so far hold a rating. */
  lemma {:induction false} RatedPlayers(pow10: real -> real, rows: seq<Row>)
    requires Pow10Laws(pow10)
    ensures RatingsAfter(pow10, rows).Keys == Players(rows)
    decreases |rows|
  {
    if rows != [] {
      RatedPlayers(pow10, rows[..|rows| - 1]);
    }
  }

  lemma RatingsAfterStep(pow10: real -> real, rows: seq<Row>, i: int)
    requires Pow10Laws(pow10)
    requires 0 <= i < |rows|
    ensures RatingsAfter(pow10, rows[..i + 1]) == EloUpdate(pow10, RatingsAfter(pow10, rows[..i]), rows[i])
  {
    assert rows[..i + 1][..i] == rows[..i];
  }

  /** The ratings row `i` reads: both players' ratings after the rows
      strictly before it (`P1_elo`, `P2_elo`). */
  function PreMatch(pow10: real -> real, rows: seq<Row>, i: int): (real, real)
    requires Pow10Laws(pow10)
    requires 0 <= i < |rows|
  {
    var st := RatingsAfter(pow10, rows[..i]);
    (Rating(st, rows[i].p1), Rating(st, rows[i].p2))
  }

  /** The loop of `create_elo_ratings` over rows already in traversal order:
      the lists `p1_elo_before` / `p2_elo_before` and the final ratings. Each
      emitted value is the rating after exactly the rows before it. */
  method EloPass(pow10: real -> real, rows: seq<Row>)
      returns (p1Elo: seq<real>, p2Elo: seq<real>, ratings: Ratings)
    requires Pow10Laws(pow10)
    ensures |p1Elo| == |rows| && |p2Elo| == |rows|
    ensures forall i :: 0 <= i < |rows| ==> (p1Elo[i], p2Elo[i]) == PreMatch(pow10, rows, i)
    ensures ratings == RatingsAfter(pow10, rows)
  {
    ratings := map[];
    p1Elo := [];
    p2Elo := [];
    var i := 0;
    while i < |rows|
      invariant 0 <= i <= |rows|
      invariant |p1Elo| == i && |p2Elo| == i
      invariant ratings == RatingsAfter(pow10, rows[..i])
      invariant forall j :: 0 <= j < i ==> (p1Elo[j], p2Elo[j]) == PreMatch(pow10, rows, j)
    {
      var row := rows[i];
      ghost var before := (p1Elo, p2Elo);
      p1Elo := p1Elo + [Rating(ratings, row.p1)];
      p2Elo := p2Elo + [Rating(ratings, row.p2)];
      forall j | 0 <= j < i + 1
        ensures (p1Elo[j], p2Elo[j]) == PreMatch(pow10, rows, j)
      {
        if j < i {
          assert (p1Elo[j], p2Elo[j]) == (before.0[j], before.1[j]);
        }
      }
      RatingsAfterStep(pow10, rows, i);
      ratings := EloUpdate(pow10, ratings, row);
      i := i + 1;
    }
    assert rows[..|rows|] == rows;
  }

  /** The three columns `create_elo_ratings` writes into a row. */
  function WithElo(r: Row, e1: real, e2: real): (r': Row)
    ensures ContestOf(r') == ContestOf(r)
    ensures r'.stats.Keys == r.stats.Keys + {P1EloColumn, P2EloColumn, EloDiffColumn}
    ensures r'.stats[P1EloColumn] == e1 && r'.stats[P2EloColumn] == e2
    ensures r'.stats[EloDiffColumn] == r'.stats[P1EloColumn] - r'.stats[P2EloColumn]
    ensures forall k :: k in r.stats && k !in {P1EloColumn, P2EloColumn, EloDiffColumn} ==>
      r'.stats[k] == r.stats[k]
  {
    WithStat(WithStat(WithStat(r, P1EloColumn, e1), P2EloColumn, e2), EloDiffColumn, e1 - e2)
  }

  /** `create_elo_ratings`: sort by date, run the pass, add `P1_elo`,
      `P2_elo` (pre-match ratings) and `elo_diff`. */
  method CreateEloRatings(pow10: real -> real, rows: seq<Row>) returns (out: seq<Row>)
    requires Pow10Laws(pow10)
    ensures |out| == |rows|
    ensures forall i, j :: 0 <= i < j < |out| ==> out[i].date <= out[j].date
    ensures forall i :: 0 <= i < |out| ==>
      var s := ByDate(rows);
      && out[i] == WithElo(s[i], PreMatch(pow10, s, i).0, PreMatch(pow10, s, i).1)
      && ContestOf(out[i]) == ContestOf(s[i])
      && P1EloColumn in out[i].stats && P2EloColumn in out[i].stats && EloDiffColumn in out[i].stats
      && (out[i].stats[P1EloColumn], out[i].stats[P2EloColumn]) == PreMatch(pow10, s, i)
      && out[i].stats[EloDiffColumn] == out[i].stats[P1EloColumn] - out[i].stats[P2EloColumn]
  {
    var sorted := ByDate(rows);
    var p1Elo, p2Elo, _ := EloPass(pow10, sorted);
    out := seq(|sorted|, i requires 0 <= i < |sorted| => WithElo(sorted[i], p1Elo[i], p2Elo[i]));
  }

  /** Cold start: a player's first row, on either side, sees rating 1500. */
  lemma ColdStart(pow10: real -> real, rows: seq<Row>, i: int, p: string)
    requires Pow10Laws(pow10)
    requires 0 <= i < |rows|
    requires p == rows[i].p1 || p == rows[i].p2
    requires forall j :: 0 <= j < i ==> rows[j].p1 != p && rows[j].p2 != p
    ensures Rating(RatingsAfter(pow10, rows[..i]), p) == InitialRating
  {
    NotInPlayers(rows[..i], p);
    RatedPlayers(pow10, rows[..i]);
  }

  /** A contest and the mirror the augmentation step adds for it, applied one
      after the other, move the real winner up twice and the loser down
      twice: every contest weighs double in the ratings. */
  lemma MirroredContestCountsTwice(pow10: real -> real, st: Ratings, r: Row, m: Row)
    requires Pow10Laws(pow10)
    requires r.result == 1 && r.p1 != r.p2 && IsMirrorOf(m, r)
    ensures var st1 := EloUpdate(pow10, st, r);
      var st2 := EloUpdate(pow10, st1, m);
      && Rating(st, r.p1) < Rating(st1, r.p1) < Rating(st2, r.p1)
      && Rating(st, r.p2) > Rating(st1, r.p2) > Rating(st2, r.p2)
  {
    assert Winner(m) == r.p1 && Loser(m) == r.p2;
  }

  /** A two-row scenario: A beats B, then A beats C. */
  lemma TwoMatchScenario(pow10: real -> real)
    requires Pow10Laws(pow10)
    ensures var rows := [Row("A", "B", 1, "Hard", 1, map[]), Row("A", "C", 2, "Hard", 1, map[])];
      && Rating(RatingsAfter(pow10, rows[..0]), "A") == 1500.0
      && Rating(RatingsAfter(pow10, rows[..0]), "B") == 1500.0
      && Rating(RatingsAfter(pow10, rows[..1]), "A") == 1516.0
      && Rating(RatingsAfter(pow10, rows[..1]), "B") == 1484.0
      && Rating(RatingsAfter(pow10, rows[..1]), "C") == 1500.0
  {
    var rows := [Row("A", "B", 1, "Hard", 1, map[]), Row("A", "C", 2, "Hard", 1, map[])];
    assert rows[..1][..0] == [];
    assert Expected(pow10, 1500.0, 1500.0) == 0.5;
  }
}
