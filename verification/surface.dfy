/** The surface-performance tracker of `create_surface_performance_features`:
    one pass over maps from (player, surface) to wins and to matches played.
    Each row emits both players' win rates on the row's surface BEFORE the
    row (0.5 without history), then counts the row for both players and
    credits the winner.

    The source traverses rows in `['P1', 'tourney_date']` order, not in date
    order, so the history a row reads can contain matches played on later
    days (`SurfaceOrderLooksAhead`). `CreateSurfacePerformanceFeaturesChronological`
    is the same pass in date order, for which `ChronologicalPassSeesOnlyThePast`
    holds. */
module Surface {
  import opened Seqs
  import opened Matches

  const P1RateColumn: string := "P1_surface_win_rate"
  const P2RateColumn: string := "P2_surface_win_rate"
  const RateDiffColumn: string := "surface_wr_diff"

  type SurfaceKey = (string, string)

  datatype SurfaceState = SurfaceState(wins: map<SurfaceKey, nat>, total: map<SurfaceKey, nat>)

  /** `d.get(k, 0)`. */
  function Get(m: map<SurfaceKey, nat>, k: SurfaceKey): nat {
    if k in m then m[k] else 0
  }

  /** No player has more wins than matches on a surface. */
  ghost predicate Consistent(st: SurfaceState) {
    forall k :: Get(st.wins, k) <= Get(st.total, k)
  }

  /** `wins / total` if `total > 0` else 0.5. */
  function WinRate(st: SurfaceState, p: string, surface: string): (rate: real)
    ensures Get(st.total, (p, surface)) == 0 ==> rate == 0.5
    ensures Consistent(st) ==> 0.0 <= rate <= 1.0
  {
    var w := Get(st.wins, (p, surface));
    var t := Get(st.total, (p, surface));
    if t > 0 then w as real / t as real else 0.5
  }

  /** How many sides of `r` the player `p` takes. */
  function Sides(r: Row, p: string): nat {
    (if r.p1 == p then 1 else 0) + (if r.p2 == p then 1 else 0)
  }

  /** The update of one row: both players' totals on the row's surface go up
      by one (P1 first, then P2), the winner's wins by one; nothing else
      changes. */
  function SurfaceUpdate(st: SurfaceState, r: Row): (st': SurfaceState)
    ensures forall p :: Get(st'.total, (p, r.surface)) == Get(st.total, (p, r.surface)) + Sides(r, p)
    ensures Get(st'.wins, (Winner(r), r.surface)) == Get(st.wins, (Winner(r), r.surface)) + 1
    ensures forall k: SurfaceKey :: k.1 != r.surface ==> Get(st'.total, k) == Get(st.total, k)
    ensures forall k :: k != (Winner(r), r.surface) ==> Get(st'.wins, k) == Get(st.wins, k)
    ensures Consistent(st) ==> Consistent(st')
  {
    var k1 := (r.p1, r.surface);
    var k2 := (r.p2, r.surface);
    var total1 := st.total[k1 := Get(st.total, k1) + 1];
    var total2 := total1[k2 := Get(total1, k2) + 1];
    var kw := (Winner(r), r.surface);
    SurfaceState(st.wins[kw := Get(st.wins, kw) + 1], total2)
  }

  /** Reference definition: the state once `rows` have been applied in order. */
  function SurfaceAfter(rows: seq<Row>): SurfaceState
    decreases |rows|
  {
    if rows == [] then SurfaceState(map[], map[])
    else SurfaceUpdate(SurfaceAfter(rows[..|rows| - 1]), rows[|rows| - 1])
  }

  lemma {:induction false} SurfaceAfterConsistent(rows: seq<Row>)
    ensures Consistent(SurfaceAfter(rows))
    decreases |rows|
  {
    if rows != [] {
      SurfaceAfterConsistent(rows[..|rows| - 1]);
    }
  }

  lemma SurfaceAfterStep(rows: seq<Row>, i: int)
    requires 0 <= i < |rows|
    ensures SurfaceAfter(rows[..i + 1]) == SurfaceUpdate(SurfaceAfter(rows[..i]), rows[i])
  {
    assert rows[..i + 1][..i] == rows[..i];
  }

  /** Rows on `surface` where `p` plays as P1, resp. as P2, resp. wins. */
  function AsP1On(p: string, surface: string): Row -> bool {
    (r: Row) => r.surface == surface && r.p1 == p
  }

  function AsP2On(p: string, surface: string): Row -> bool {
    (r: Row) => r.surface == surface && r.p2 == p
  }

  function WonOn(p: string, surface: string): Row -> bool {
    (r: Row) => r.surface == surface && Winner(r) == p
  }

  /** The counters hold exactly the player's earlier appearances, and wins,
      on the surface. */
  lemma CountersAreAppearances(rows: seq<Row>, p: string, surface: string)
    ensures Get(SurfaceAfter(rows).total, (p, surface))
      == Count(rows, AsP1On(p, surface)) + Count(rows, AsP2On(p, surface))
    ensures Get(SurfaceAfter(rows).wins, (p, surface)) == Count(rows, WonOn(p, surface))
  {
    TotalsAreAppearances(rows, p, surface);
    WinsAreWinsOn(rows, p, surface);
  }

  lemma {:induction false} TotalsAreAppearances(rows: seq<Row>, p: string, surface: string)
    ensures Get(SurfaceAfter(rows).total, (p, surface))
      == Count(rows, AsP1On(p, surface)) + Count(rows, AsP2On(p, surface))
    decreases |rows|
  {
    if rows != [] {
      var prev := rows[..|rows| - 1];
      var last := rows[|rows| - 1];
      TotalsAreAppearances(prev, p, surface);
      assert rows == prev + [last];
      CountSnoc(prev, last, AsP1On(p, surface));
      CountSnoc(prev, last, AsP2On(p, surface));
      TotalStep(SurfaceAfter(prev), last, p, surface);
    }
  }

  lemma {:induction false} WinsAreWinsOn(rows: seq<Row>, p: string, surface: string)
    ensures Get(SurfaceAfter(rows).wins, (p, surface)) == Count(rows, WonOn(p, surface))
    decreases |rows|
  {
    if rows != [] {
      var prev := rows[..|rows| - 1];
      var last := rows[|rows| - 1];
      WinsAreWinsOn(prev, p, surface);
      assert rows == prev + [last];
      CountSnoc(prev, last, WonOn(p, surface));
      WinStep(SurfaceAfter(prev), last, p, surface);
    }
  }

  /** One row adds to a total once per side the player takes on the row's
      surface. */
  lemma TotalStep(st: SurfaceState, r: Row, p: string, surface: string)
    ensures Get(SurfaceUpdate(st, r).total, (p, surface))
      == Get(st.total, (p, surface)) + (if AsP1On(p, surface)(r) then 1 else 0) + (if AsP2On(p, surface)(r) then 1 else 0)
  {
    if surface != r.surface {
      assert (p, surface).1 != r.surface;
    }
  }

  /** One row adds a win to its winner on its surface only. */
  lemma WinStep(st: SurfaceState, r: Row, p: string, surface: string)
    ensures Get(SurfaceUpdate(st, r).wins, (p, surface))
      == Get(st.wins, (p, surface)) + (if WonOn(p, surface)(r) then 1 else 0)
  {
  }

  /** The two rates row `i` reads from the state after the rows before it. */
  datatype SurfaceRates = SurfaceRates(p1Rate: real, p2Rate: real)

  function PreMatch(rows: seq<Row>, i: int): (rates: SurfaceRates)
    requires 0 <= i < |rows|
    ensures 0.0 <= rates.p1Rate <= 1.0 && 0.0 <= rates.p2Rate <= 1.0
  {
    var st := SurfaceAfter(rows[..i]);
    SurfaceAfterConsistent(rows[..i]);
    SurfaceRates(WinRate(st, rows[i].p1, rows[i].surface), WinRate(st, rows[i].p2, rows[i].surface))
  }

  /** The loop of `create_surface_performance_features` over rows already in
      traversal order. */
  method SurfacePass(rows: seq<Row>) returns (rates: seq<SurfaceRates>, st: SurfaceState)
    ensures |rates| == |rows|
    ensures forall i :: 0 <= i < |rows| ==> rates[i] == PreMatch(rows, i)
    ensures st == SurfaceAfter(rows)
  {
    st := SurfaceState(map[], map[]);
    rates := [];
    var i := 0;
    while i < |rows|
      invariant 0 <= i <= |rows|
      invariant |rates| == i
      invariant st == SurfaceAfter(rows[..i])
      invariant forall j :: 0 <= j < i ==> rates[j] == PreMatch(rows, j)
    {
      var row := rows[i];
      ghost var before := rates;
      rates := rates + [SurfaceRates(WinRate(st, row.p1, row.surface), WinRate(st, row.p2, row.surface))];
      forall j | 0 <= j < i + 1
        ensures rates[j] == PreMatch(rows, j)
      {
        if j < i {
          assert rates[j] == before[j];
        }
      }
      SurfaceAfterStep(rows, i);
      st := SurfaceUpdate(st, row);
      i := i + 1;
    }
    assert rows[..|rows|] == rows;
  }

  /** The three columns written into a row. */
  function WithRates(r: Row, e: SurfaceRates): (r': Row)
    ensures ContestOf(r') == ContestOf(r)
    ensures r'.stats.Keys == r.stats.Keys + {P1RateColumn, P2RateColumn, RateDiffColumn}
    ensures r'.stats[P1RateColumn] == e.p1Rate && r'.stats[P2RateColumn] == e.p2Rate
    ensures r'.stats[RateDiffColumn] == r'.stats[P1RateColumn] - r'.stats[P2RateColumn]
    ensures forall k :: k in r.stats && k !in {P1RateColumn, P2RateColumn, RateDiffColumn} ==>
      r'.stats[k] == r.stats[k]
  {
    WithStat(WithStat(WithStat(r, P1RateColumn, e.p1Rate), P2RateColumn, e.p2Rate),
      RateDiffColumn, e.p1Rate - e.p2Rate)
  }

  /** The pass over rows in a given order, with the columns written. */
  method RatesInOrder(s: seq<Row>) returns (out: seq<Row>)
    ensures |out| == |s|
    ensures forall i :: 0 <= i < |s| ==>
      && out[i] == WithRates(s[i], PreMatch(s, i))
      && ContestOf(out[i]) == ContestOf(s[i])
      && out[i].stats.Keys == s[i].stats.Keys + {P1RateColumn, P2RateColumn, RateDiffColumn}
      && out[i].stats[P1RateColumn] == PreMatch(s, i).p1Rate
      && out[i].stats[P2RateColumn] == PreMatch(s, i).p2Rate
      && out[i].stats[RateDiffColumn] == out[i].stats[P1RateColumn] - out[i].stats[P2RateColumn]
      && 0.0 <= out[i].stats[P1RateColumn] <= 1.0 && 0.0 <= out[i].stats[P2RateColumn] <= 1.0
  {
    var rates, _ := SurfacePass(s);
    out := seq(|s|, i requires 0 <= i < |s| => WithRates(s[i], rates[i]));
  }

  /** `create_surface_performance_features` as written: rows visited in
      `['P1', 'tourney_date']` order, and returned in that order. */
  method CreateSurfacePerformanceFeatures(rows: seq<Row>) returns (out: seq<Row>)
    ensures |out| == |rows|
    ensures forall i :: 0 <= i < |out| ==>
      var s := ByPlayerDate(rows);
      && out[i] == WithRates(s[i], PreMatch(s, i))
      && ContestOf(out[i]) == ContestOf(s[i])
      && out[i].stats.Keys == s[i].stats.Keys + {P1RateColumn, P2RateColumn, RateDiffColumn}
      && out[i].stats[P1RateColumn] == PreMatch(s, i).p1Rate
      && out[i].stats[P2RateColumn] == PreMatch(s, i).p2Rate
      && out[i].stats[RateDiffColumn] == out[i].stats[P1RateColumn] - out[i].stats[P2RateColumn]
      && 0.0 <= out[i].stats[P1RateColumn] <= 1.0 && 0.0 <= out[i].stats[P2RateColumn] <= 1.0
  {
    out := RatesInOrder(ByPlayerDate(rows));
  }

  /** The same pass in `tourney_date` order, the order the other engines use. */
  method CreateSurfacePerformanceFeaturesChronological(rows: seq<Row>) returns (out: seq<Row>)
    ensures |out| == |rows|
    ensures forall i, j :: 0 <= i < j < |out| ==> out[i].date <= out[j].date
    ensures forall i :: 0 <= i < |out| ==>
      var s := ByDate(rows);
      && out[i] == WithRates(s[i], PreMatch(s, i))
      && ContestOf(out[i]) == ContestOf(s[i])
      && out[i].stats.Keys == s[i].stats.Keys + {P1RateColumn, P2RateColumn, RateDiffColumn}
      && out[i].stats[P1RateColumn] == PreMatch(s, i).p1Rate
      && out[i].stats[P2RateColumn] == PreMatch(s, i).p2Rate
  {
    out := RatesInOrder(ByDate(rows));
  }

  /** Two rows: Z beats B on day 1, A beats B on day 2, both on hard. In
      `['P1', 'tourney_date']` order the day-2 row comes first, so when the
      day-1 row is read B's record already holds the day-2 loss: B's rate is
      0 although B has no match before day 1. */
  const Day1: Row := Row("Z", "B", 1, "Hard", 1, map[])
  const Day2: Row := Row("A", "B", 2, "Hard", 1, map[])

  lemma SurfaceOrderLooksAhead()
    ensures ByPlayerDate([Day1, Day2]) == [Day2, Day1]
    ensures PreMatch([Day2, Day1], 1).p2Rate == 0.0
    ensures Count([Day1, Day2], DatedBefore(Day1.date)) == 0
  {
    ScenarioOrder();
    ScenarioRate();
    NothingBeforeDay1();
  }

  /** No row of the scenario is played before the first day. */
  lemma NothingBeforeDay1()
    ensures Count([Day1, Day2], DatedBefore(Day1.date)) == 0
  {
    CountNone([Day1, Day2], DatedBefore(Day1.date));
  }

  function DatedBefore(d: int): Row -> bool {
    (r: Row) => r.date < d
  }

  lemma ScenarioOrder()
    ensures ByPlayerDate([Day1, Day2]) == [Day2, Day1]
  {
    var s := ByPlayerDate([Day1, Day2]);
    assert !PlayerDateLe(Day1, Day2) by {
      assert Day1.p1[0] > Day2.p1[0];
    }
    assert s[0] in multiset([Day1, Day2]) && s[1] in multiset([Day1, Day2]);
    assert s[0] == Day2 by {
      assert PlayerDateLe(s[0], s[1]);
    }
    assert multiset(s) == multiset{Day1, Day2};
    assert s[1] == Day1 by {
      assert multiset{s[0], s[1]} == multiset(s);
    }
  }

  lemma ScenarioRate()
    ensures PreMatch([Day2, Day1], 1).p2Rate == 0.0
  {
    var s := [Day2, Day1];
    assert s[..1] == [Day2];
    assert [Day2][..0] == [];
    var empty := SurfaceState(map[], map[]);
    assert SurfaceAfter([Day2]) == SurfaceUpdate(empty, Day2);
    assert Sides(Day2, "B") == 1;
    assert Winner(Day2) == "A" && ("B", "Hard") != ("A", "Hard");
  }

  /** In a date-sorted permutation `s` of `rows`, the rows before position
      `i` hold every row of a strictly earlier day. */
  lemma EarlierDaysBefore(rows: seq<Row>, s: seq<Row>, i: int, p: Row -> bool)
    requires multiset(s) == multiset(rows) && 0 <= i < |s|
    requires forall j, k :: 0 <= j < k < |s| ==> s[j].date <= s[k].date
    ensures Count(rows, (r: Row) => p(r) && r.date < s[i].date) <= Count(s[..i], p)
  {
    var before := (r: Row) => p(r) && r.date < s[i].date;
    assert s == s[..i] + s[i..];
    CountPermutation(rows, s, before);
    CountAppend(s[..i], s[i..], before);
    forall j | 0 <= j < |s[i..]| ensures !before(s[i..][j]) {
      assert s[i..][j] == s[i + j];
    }
    CountNone(s[i..], before);
    CountMonotone(s[..i], before, p);
  }

  /** ... and only rows of a day up to the row's own. */
  lemma NoLaterDayBefore(rows: seq<Row>, s: seq<Row>, i: int, p: Row -> bool)
    requires multiset(s) == multiset(rows) && 0 <= i < |s|
    requires forall j, k :: 0 <= j < k < |s| ==> s[j].date <= s[k].date
    ensures Count(s[..i], p) <= Count(rows, (r: Row) => p(r) && r.date <= s[i].date)
  {
    var upTo := (r: Row) => p(r) && r.date <= s[i].date;
    assert s == s[..i] + s[i..];
    CountPermutation(rows, s, upTo);
    CountAppend(s[..i], s[i..], upTo);
    assert forall j :: 0 <= j < |s[..i]| ==> s[..i][j].date <= s[i].date;
    CountMonotone(s[..i], p, upTo);
  }

  /** In date order the history a row reads never holds a match of a later
      day, and always holds every match of an earlier day: a player's total
      on the surface lies between its appearances there strictly before the
      row's day and its appearances up to that day. */
  lemma ChronologicalPassSeesOnlyThePast(rows: seq<Row>, i: int, p: string)
    requires 0 <= i < |rows|
    ensures var s := ByDate(rows);
      var d := s[i].date;
      var surface := s[i].surface;
      var played := Get(SurfaceAfter(s[..i]).total, (p, surface));
      && Count(rows, (r: Row) => AsP1On(p, surface)(r) && r.date < d)
         + Count(rows, (r: Row) => AsP2On(p, surface)(r) && r.date < d) <= played
      && played <= Count(rows, (r: Row) => AsP1On(p, surface)(r) && r.date <= d)
         + Count(rows, (r: Row) => AsP2On(p, surface)(r) && r.date <= d)
  {
    var s := ByDate(rows);
    CountersAreAppearances(s[..i], p, s[i].surface);
    EarlierDaysBefore(rows, s, i, AsP1On(p, s[i].surface));
    EarlierDaysBefore(rows, s, i, AsP2On(p, s[i].surface));
    NoLaterDayBefore(rows, s, i, AsP1On(p, s[i].surface));
    NoLaterDayBefore(rows, s, i, AsP2On(p, s[i].surface));
  }
}
