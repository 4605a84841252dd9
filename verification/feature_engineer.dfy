/** `engineer_features`: the stages in the source's order — rolling
    averages of the match statistics the table holds, Elo ratings,
    head-to-head counts, surface win rates — then a final sort by date.
    The time features (`year`, `month`, `day_of_year`) are not modelled.

    Each stage reorders the rows and writes new columns; the contests
    themselves survive every stage, and every derived column keeps the
    relation its stage gave it through the later stages. */
module FeatureEngineer {
  import opened Wrappers
  import opened Seqs
  import opened Matches
  import opened Rolling
  import Elo
  import HeadToHead
  import Surface

  /** The statistics averaged, when the table holds them. */
  const StatColumns: seq<string> := [
    "P1_rank", "P1_rank_pts", "P2_rank", "P2_rank_pts",
    "P1_ace", "P1_df", "P1_svpt", "P1_1stIn", "P1_1stWon", "P1_2ndWon",
    "P1_SvGms", "P1_bpSaved", "P1_bpFaced",
    "P2_ace", "P2_df", "P2_svpt", "P2_1stIn", "P2_1stWon", "P2_2ndWon",
    "P2_SvGms", "P2_bpSaved", "P2_bpFaced"]

  function Contests(rows: seq<Row>): seq<Contest> {
    MapSeq(rows, ContestOf)
  }

  /** The Elo columns, with `elo_diff == P1_elo - P2_elo`. */
  predicate HasElo(r: Row) {
    && Elo.P1EloColumn in r.stats && Elo.P2EloColumn in r.stats && Elo.EloDiffColumn in r.stats
    && r.stats[Elo.EloDiffColumn] == r.stats[Elo.P1EloColumn] - r.stats[Elo.P2EloColumn]
  }

  /** The head-to-head columns, with the total the sum of the two win counts
      and the ratio in [0, 1]. */
  predicate HasH2H(r: Row) {
    && HeadToHead.TotalColumn in r.stats && HeadToHead.P1WinsColumn in r.stats
    && HeadToHead.P2WinsColumn in r.stats && HeadToHead.RatioColumn in r.stats
    && r.stats[HeadToHead.TotalColumn] == r.stats[HeadToHead.P1WinsColumn] + r.stats[HeadToHead.P2WinsColumn]
    && 0.0 <= r.stats[HeadToHead.RatioColumn] <= 1.0
  }

  /** The surface columns, with both rates in [0, 1] and the difference
      between them. */
  predicate HasSurfaceRates(r: Row) {
    && Surface.P1RateColumn in r.stats && Surface.P2RateColumn in r.stats && Surface.RateDiffColumn in r.stats
    && 0.0 <= r.stats[Surface.P1RateColumn] <= 1.0 && 0.0 <= r.stats[Surface.P2RateColumn] <= 1.0
    && r.stats[Surface.RateDiffColumn] == r.stats[Surface.P1RateColumn] - r.stats[Surface.P2RateColumn]
  }

  predicate HasRolling(r: Row, cols: seq<string>) {
    forall c :: c in cols ==> MoyName(c) in r.stats
  }

  /** A property of every row holds of every row of a permutation. */
  lemma AllOfPermutation(a: seq<Row>, b: seq<Row>, p: Row -> bool)
    requires multiset(a) == multiset(b)
    requires forall j :: 0 <= j < |a| ==> p(a[j])
    ensures forall i :: 0 <= i < |b| ==> p(b[i])
  {
    forall i | 0 <= i < |b|
      ensures p(b[i])
    {
      assert b[i] in multiset(a);
    }
  }

  /** A stage that permutes its input into `s` and keeps the contest of
      every position keeps the multiset of contests. */
  lemma ContestsKept(input: seq<Row>, s: seq<Row>, out: seq<Row>)
    requires multiset(s) == multiset(input)
    requires |out| == |s|
    requires forall i :: 0 <= i < |s| ==> ContestOf(out[i]) == ContestOf(s[i])
    ensures multiset(Contests(out)) == multiset(Contests(input))
  {
    assert Contests(out) == Contests(s);
    MapPermutation(s, input, ContestOf);
  }

  predicate IsEloColumn(k: string) {
    k == Elo.P1EloColumn || k == Elo.P2EloColumn || k == Elo.EloDiffColumn
  }

  predicate IsH2HColumn(k: string) {
    k == HeadToHead.TotalColumn || k == HeadToHead.P1WinsColumn
    || k == HeadToHead.P2WinsColumn || k == HeadToHead.RatioColumn
  }

  /** Writing the head-to-head columns leaves the Elo columns and the rolling
      averages as they were, values included. */
  lemma H2HKeepsEarlier(r: Row, cols: seq<string>, e: HeadToHead.H2HRecord)
    ensures forall k :: k in r.stats && (IsEloColumn(k) || IsMoyColumn(k)) ==>
      k in HeadToHead.WithH2H(r, e).stats && HeadToHead.WithH2H(r, e).stats[k] == r.stats[k]
    ensures HasElo(r) ==> HasElo(HeadToHead.WithH2H(r, e))
    ensures HasRolling(r, cols) ==> HasRolling(HeadToHead.WithH2H(r, e), cols)
  {
    NotMoyColumn(HeadToHead.TotalColumn);
    NotMoyColumn(HeadToHead.P1WinsColumn);
    NotMoyColumn(HeadToHead.P2WinsColumn);
    NotMoyColumn(HeadToHead.RatioColumn);
  }

  /** Writing the surface columns leaves the Elo and head-to-head columns and
      the rolling averages as they were, values included. */
  lemma RatesKeepEarlier(r: Row, cols: seq<string>, f: Surface.SurfaceRates)
    ensures forall k :: k in r.stats && (IsEloColumn(k) || IsH2HColumn(k) || IsMoyColumn(k)) ==>
      k in Surface.WithRates(r, f).stats && Surface.WithRates(r, f).stats[k] == r.stats[k]
    ensures HasElo(r) ==> HasElo(Surface.WithRates(r, f))
    ensures HasH2H(r) ==> HasH2H(Surface.WithRates(r, f))
    ensures HasRolling(r, cols) ==> HasRolling(Surface.WithRates(r, f), cols)
  {
    NotMoyColumn(Surface.P1RateColumn);
    NotMoyColumn(Surface.P2RateColumn);
    NotMoyColumn(Surface.RateDiffColumn);
  }

  /** Row-order-free summary of a stage: as many rows, the same contests. */
  ghost predicate SameContests(input: seq<Row>, out: seq<Row>) {
    |out| == |input| && multiset(Contests(out)) == multiset(Contests(input))
  }

  /** `rolled` is `calculate_rolling_stats` of `input` over `cols`: the rows
      in (P1, date) order, each with its rolling averages. */
  ghost predicate RolledFrom(input: seq<Row>, rolled: seq<Row>, cols: seq<string>, w: int) {
    AllRolled(ByPlayerDate(input), rolled, cols, w)
  }

  /** `rated` is `create_elo_ratings` of `input`: the rows in date order,
      each with the two players' ratings before it. */
  ghost predicate RatedFrom(pow10: real -> real, input: seq<Row>, rated: seq<Row>)
    requires Elo.Pow10Laws(pow10)
  {
    var s := ByDate(input);
    && |rated| == |s|
    && forall i :: 0 <= i < |s| ==>
      rated[i] == Elo.WithElo(s[i], Elo.PreMatch(pow10, s, i).0, Elo.PreMatch(pow10, s, i).1)
  }

  /** `paired` is `create_head_to_head_features` of `input`: the rows in
      date order, each with its pair's record before it. */
  ghost predicate PairedFrom(input: seq<Row>, paired: seq<Row>) {
    var s := ByDate(input);
    |paired| == |s| && forall i :: 0 <= i < |s| ==> HeadToHead.EmitsH2H(s, i, paired[i])
  }

  /** `surfaced` is `create_surface_performance_features` of `input`: the
      rows in (P1, date) order, each with the rates the pass reads. */
  ghost predicate SurfacedFrom(input: seq<Row>, surfaced: seq<Row>) {
    var s := ByPlayerDate(input);
    && |surfaced| == |s|
    && forall i :: 0 <= i < |s| ==> surfaced[i] == Surface.WithRates(s[i], Surface.PreMatch(s, i))
  }

  method RollingStage(rows: seq<Row>, cols: seq<string>, w: int) returns (res: Result<seq<Row>, RollingError>)
    ensures res.Failure? <==> w < 1 && exists c :: c in cols && Present(rows, c)
    ensures res.Success? ==> SameContests(rows, res.value)
    ensures res.Success? ==> forall i :: 0 <= i < |res.value| ==>
      (forall c :: c in cols && Present(rows, c) ==> MoyName(c) in res.value[i].stats)
    ensures res.Success? && NoMoyClash(cols) ==> RolledFrom(rows, res.value, cols, w)
  {
    res := CalculateRollingStats(rows, cols, w);
    if res.Success? {
      ContestsKept(rows, ByPlayerDate(rows), res.value);
    }
  }

  method EloStage(pow10: real -> real, input: seq<Row>, cols: seq<string>) returns (out: seq<Row>)
    requires Elo.Pow10Laws(pow10)
    requires forall j :: 0 <= j < |input| ==> HasRolling(input[j], cols)
    ensures SameContests(input, out)
    ensures RatedFrom(pow10, input, out)
    ensures forall i, j :: 0 <= i < j < |out| ==> out[i].date <= out[j].date
    ensures forall i :: 0 <= i < |out| ==> HasElo(out[i]) && HasRolling(out[i], cols)
  {
    out := Elo.CreateEloRatings(pow10, input);
    ghost var s := ByDate(input);
    ContestsKept(input, s, out);
    AllOfPermutation(input, s, (r: Row) => HasRolling(r, cols));
  }

  method H2HStage(input: seq<Row>, cols: seq<string>) returns (out: seq<Row>)
    requires forall j :: 0 <= j < |input| ==> HasElo(input[j]) && HasRolling(input[j], cols)
    ensures SameContests(input, out)
    ensures PairedFrom(input, out)
    ensures forall i :: 0 <= i < |out| ==> HasElo(out[i]) && HasH2H(out[i]) && HasRolling(out[i], cols)
  {
    out := HeadToHead.CreateHeadToHeadFeatures(input);
    ghost var s := ByDate(input);
    ContestsKept(input, s, out);
    AllOfPermutation(input, s, (r: Row) => HasElo(r) && HasRolling(r, cols));
    forall i | 0 <= i < |out|
      ensures HasElo(out[i]) && HasH2H(out[i]) && HasRolling(out[i], cols)
    {
      H2HKeepsEarlier(s[i], cols, HeadToHead.PreMatch(s, i));
    }
  }

  method SurfaceStage(input: seq<Row>, cols: seq<string>) returns (out: seq<Row>)
    requires forall j :: 0 <= j < |input| ==> HasElo(input[j]) && HasH2H(input[j]) && HasRolling(input[j], cols)
    ensures SameContests(input, out)
    ensures SurfacedFrom(input, out)
    ensures forall i :: 0 <= i < |out| ==>
      HasElo(out[i]) && HasH2H(out[i]) && HasSurfaceRates(out[i]) && HasRolling(out[i], cols)
  {
    out := Surface.CreateSurfacePerformanceFeatures(input);
    ghost var s := ByPlayerDate(input);
    ContestsKept(input, s, out);
    AllOfPermutation(input, s, (r: Row) => HasElo(r) && HasH2H(r) && HasRolling(r, cols));
    forall i | 0 <= i < |out|
      ensures HasElo(out[i]) && HasH2H(out[i]) && HasSurfaceRates(out[i]) && HasRolling(out[i], cols)
    {
      RatesKeepEarlier(s[i], cols, Surface.PreMatch(s, i));
    }
  }

  /** The stages over a given list of statistic columns. The tables between
      the stages are returned as ghost results: each stage's output is that
      stage applied to the previous one, and the result is the last of them
      sorted by date. */
  method RunStages(pow10: real -> real, rows: seq<Row>, cols: seq<string>, w: int)
      returns (res: Result<seq<Row>, RollingError>,
               ghost rolled: seq<Row>, ghost rated: seq<Row>, ghost paired: seq<Row>, ghost surfaced: seq<Row>)
    requires Elo.Pow10Laws(pow10)
    ensures res.Failure? <==> w < 1 && exists c :: c in cols && Present(rows, c)
    ensures res.Success? ==>
      var out := res.value;
      && |out| == |rows|
      && (forall i, j :: 0 <= i < j < |out| ==> out[i].date <= out[j].date)
      && multiset(Contests(out)) == multiset(Contests(rows))
      && (forall i :: 0 <= i < |out| ==> HasElo(out[i]) && HasH2H(out[i]) && HasSurfaceRates(out[i]))
      && (forall i, c :: 0 <= i < |out| && c in cols && Present(rows, c) ==> MoyName(c) in out[i].stats)
    ensures res.Success? ==>
      && (NoMoyClash(cols) ==> RolledFrom(rows, rolled, cols, w))
      && RatedFrom(pow10, rolled, rated)
      && PairedFrom(rated, paired)
      && SurfacedFrom(paired, surfaced)
      && res.value == ByDate(surfaced)
  {
    var rollingResult := RollingStage(rows, cols, w);
    if rollingResult.Failure? {
      return Failure(rollingResult.error), [], [], [], [];
    }
    var present := Filter(cols, (c: string) => Present(rows, c));
    var r1 := rollingResult.value;
    var out, r2, r3, r4 := LaterStages(pow10, r1, present);
    return Success(out), r1, r2, r3, r4;
  }

  /** The Elo, head-to-head and surface stages on the averaged table, then
      the date sort. */
  method LaterStages(pow10: real -> real, r1: seq<Row>, present: seq<string>)
      returns (out: seq<Row>, ghost rated: seq<Row>, ghost paired: seq<Row>, ghost surfaced: seq<Row>)
    requires Elo.Pow10Laws(pow10)
    requires forall j :: 0 <= j < |r1| ==> HasRolling(r1[j], present)
    ensures |out| == |r1|
    ensures forall i, j :: 0 <= i < j < |out| ==> out[i].date <= out[j].date
    ensures multiset(Contests(out)) == multiset(Contests(r1))
    ensures forall i :: 0 <= i < |out| ==>
      HasElo(out[i]) && HasH2H(out[i]) && HasSurfaceRates(out[i]) && HasRolling(out[i], present)
    ensures RatedFrom(pow10, r1, rated) && PairedFrom(rated, paired) && SurfacedFrom(paired, surfaced)
    ensures out == ByDate(surfaced)
  {
    var r2 := EloStage(pow10, r1, present);
    var r3 := H2HStage(r2, present);
    var r4 := SurfaceStage(r3, present);
    out := ByDate(r4);
    MapPermutation(out, r4, ContestOf);
    AllOfPermutation(r4, out, (r: Row) => HasElo(r) && HasH2H(r) && HasSurfaceRates(r) && HasRolling(r, present));
    rated, paired, surfaced := r2, r3, r4;
  }

  /** Averaging the listed columns the table holds is averaging the whole
      list: absent columns are skipped either way. */
  lemma RolledFromListed(rows: seq<Row>, rolled: seq<Row>, listed: seq<string>, w: int)
    requires RolledFrom(rows, rolled, Filter(listed, (c: string) => Present(rows, c)), w)
    ensures RolledFrom(rows, rolled, listed, w)
  {
    var s := ByPlayerDate(rows);
    var cols := Filter(listed, (c: string) => Present(rows, c));
    forall c | Present(s, c)
      ensures c in cols <==> c in listed
    {
      PresentPermutation(rows, s, c);
    }
    forall i | 0 <= i < |s|
      ensures RowRolled(s, i, rolled[i], listed, w)
    {
      RowRolledSameListed(s, i, rolled[i], cols, listed, w);
    }
  }

  /** Running the stages on the listed columns the table holds is running
      them on the whole list. */
  method RunPresentStages(pow10: real -> real, rows: seq<Row>, listed: seq<string>, w: int)
      returns (res: Result<seq<Row>, RollingError>,
               ghost rolled: seq<Row>, ghost rated: seq<Row>, ghost paired: seq<Row>, ghost surfaced: seq<Row>)
    requires Elo.Pow10Laws(pow10)
    ensures res.Failure? <==> w < 1 && exists c :: c in listed && Present(rows, c)
    ensures res.Success? ==>
      var out := res.value;
      && |out| == |rows|
      && (forall i, j :: 0 <= i < j < |out| ==> out[i].date <= out[j].date)
      && multiset(Contests(out)) == multiset(Contests(rows))
      && (forall i :: 0 <= i < |out| ==> HasElo(out[i]) && HasH2H(out[i]) && HasSurfaceRates(out[i]))
      && (forall i, c :: 0 <= i < |out| && c in listed && Present(rows, c) ==> MoyName(c) in out[i].stats)
    ensures res.Success? ==>
      && (NoMoyClash(listed) ==> RolledFrom(rows, rolled, listed, w))
      && RatedFrom(pow10, rolled, rated)
      && PairedFrom(rated, paired)
      && SurfacedFrom(paired, surfaced)
      && res.value == ByDate(surfaced)
  {
    var cols := Filter(listed, (c: string) => Present(rows, c));
    res, rolled, rated, paired, surfaced := RunStages(pow10, rows, cols, w);
    if res.Success? && NoMoyClash(listed) {
      assert NoMoyClash(cols);
      RolledFromListed(rows, rolled, listed, w);
    }
  }

  /** No name of the list ends in `y`. */
  predicate NoneEndsInY(cs: seq<string>) {
    forall i :: 0 <= i < |cs| ==> |cs[i]| > 0 && cs[i][|cs[i]| - 1] != 'y'
  }

  /** No statistic averaged is itself a rolling average. */
  lemma StatColumnsNoClash()
    ensures NoMoyClash(StatColumns)
  {
    assert NoneEndsInY(StatColumns[..11]);
    assert NoneEndsInY(StatColumns[11..]);
    forall c | c in StatColumns
      ensures !IsMoyColumn(c)
    {
      var i :| 0 <= i < |StatColumns| && StatColumns[i] == c;
      if i < 11 {
        assert c == StatColumns[..11][i];
      } else {
        assert c == StatColumns[11..][i - 11];
      }
      NotMoyColumn(c);
    }
  }

  /** `engineer_features` with `rolling_window == w`: the listed statistics
      the table holds are averaged, then the other stages run, each on the
      previous one's output, and the last is sorted by date. */
  method EngineerFeatures(pow10: real -> real, rows: seq<Row>, w: int)
      returns (res: Result<seq<Row>, RollingError>,
               ghost rolled: seq<Row>, ghost rated: seq<Row>, ghost paired: seq<Row>, ghost surfaced: seq<Row>)
    requires Elo.Pow10Laws(pow10)
    ensures res.Failure? <==> w < 1 && exists c :: c in StatColumns && Present(rows, c)
    ensures res.Success? ==>
      var out := res.value;
      && |out| == |rows|
      && (forall i, j :: 0 <= i < j < |out| ==> out[i].date <= out[j].date)
      && multiset(Contests(out)) == multiset(Contests(rows))
      && (forall i :: 0 <= i < |out| ==> HasElo(out[i]) && HasH2H(out[i]) && HasSurfaceRates(out[i]))
      && (forall i, c :: 0 <= i < |out| && c in StatColumns && Present(rows, c) ==> MoyName(c) in out[i].stats)
    ensures res.Success? ==>
      && RolledFrom(rows, rolled, StatColumns, w)
      && RatedFrom(pow10, rolled, rated)
      && PairedFrom(rated, paired)
      && SurfacedFrom(paired, surfaced)
      && res.value == ByDate(surfaced)
  {
    StatColumnsNoClash();
    res, rolled, rated, paired, surfaced := RunPresentStages(pow10, rows, StatColumns, w);
  }

  /** A sort of one row is that row. */
  lemma SortOfOne(s: seq<Row>, x: Row)
    requires multiset(s) == multiset([x])
    ensures s == [x]
  {
    assert |s| == |multiset(s)| == 1;
    assert s[0] in multiset([x]);
  }

  /** Averaging a table of one row keeps its contest and gives each
      present column the row's own value. */
  lemma OneRolled(x: Row, w: int, rolled: seq<Row>)
    requires RolledFrom([x], rolled, StatColumns, w)
    ensures |rolled| == 1 && ContestOf(rolled[0]) == ContestOf(x)
    ensures forall c :: c in StatColumns && c in x.stats ==>
      MoyName(c) in rolled[0].stats && rolled[0].stats[MoyName(c)] == x.stats[c]
  {
    SortOfOne(ByPlayerDate([x]), x);
    assert RowRolled([x], 0, rolled[0], StatColumns, w);
    forall c | c in StatColumns && c in x.stats
      ensures MoyName(c) in rolled[0].stats && rolled[0].stats[MoyName(c)] == x.stats[c]
    {
      assert Present([x], c);
      FirstRowIsOwnValue([x], 0, c, w);
    }
  }

  /** The one row of a table is rated at the initial rating on both sides. */
  lemma OneRated(pow10: real -> real, s: seq<Row>, rated: seq<Row>)
    requires Elo.Pow10Laws(pow10) && |s| == 1
    requires RatedFrom(pow10, s, rated)
    ensures rated == [Elo.WithElo(s[0], Elo.InitialRating, Elo.InitialRating)]
  {
    assert s == [s[0]];
    SortOfOne(ByDate(s), s[0]);
    assert Elo.RatingsAfter(pow10, ByDate(s)[..0]) == map[];
  }

  /** The one row of a table has met nobody before. */
  lemma OnePaired(s: seq<Row>, paired: seq<Row>)
    requires |s| == 1 && PairedFrom(s, paired)
    ensures paired == [HeadToHead.WithH2H(s[0], HeadToHead.H2HRecord(0, 0, 0, 0.5))]
  {
    assert s == [s[0]];
    SortOfOne(ByDate(s), s[0]);
    assert ByDate(s)[..0] == [];
    assert HeadToHead.PreMatch(ByDate(s), 0) == HeadToHead.H2HRecord(0, 0, 0, 0.5);
  }

  /** The one row of a table has no surface history. */
  lemma OneSurfaced(s: seq<Row>, surfaced: seq<Row>)
    requires |s| == 1 && SurfacedFrom(s, surfaced)
    ensures surfaced == [Surface.WithRates(s[0], Surface.SurfaceRates(0.5, 0.5))]
  {
    assert s == [s[0]];
    SortOfOne(ByPlayerDate(s), s[0]);
    assert ByPlayerDate(s)[..0] == [];
    assert Surface.PreMatch(ByPlayerDate(s), 0) == Surface.SurfaceRates(0.5, 0.5);
  }

  /** The row the stages make of a table of one match: the averaged row
      at the initial rating on both sides, with no earlier meeting and no
      surface history. */
  function OneMatchRow(r: Row): Row {
    Surface.WithRates(
      HeadToHead.WithH2H(Elo.WithElo(r, Elo.InitialRating, Elo.InitialRating), HeadToHead.H2HRecord(0, 0, 0, 0.5)),
      Surface.SurfaceRates(0.5, 0.5))
  }

  /** The stages turn a table of one match into that one row, each rolling
      average being the row's own value. */
  lemma OneMatchFeatures(pow10: real -> real, x: Row, w: int, rolled: seq<Row>, rated: seq<Row>,
                         paired: seq<Row>, surfaced: seq<Row>, out: seq<Row>)
    requires Elo.Pow10Laws(pow10)
    requires RolledFrom([x], rolled, StatColumns, w)
    requires RatedFrom(pow10, rolled, rated) && PairedFrom(rated, paired) && SurfacedFrom(paired, surfaced)
    requires out == ByDate(surfaced)
    ensures |rolled| == 1 && out == [OneMatchRow(rolled[0])]
    ensures ContestOf(rolled[0]) == ContestOf(x)
    ensures forall c :: c in StatColumns && c in x.stats ==>
      MoyName(c) in rolled[0].stats && rolled[0].stats[MoyName(c)] == x.stats[c]
  {
    OneRolled(x, w, rolled);
    OneChain(pow10, rolled, rated, paired, surfaced, out);
  }

  /** The Elo, head-to-head and surface stages on a table of one row. */
  lemma OneChain(pow10: real -> real, rolled: seq<Row>, rated: seq<Row>, paired: seq<Row>, surfaced: seq<Row>, out: seq<Row>)
    requires Elo.Pow10Laws(pow10) && |rolled| == 1
    requires RatedFrom(pow10, rolled, rated) && PairedFrom(rated, paired) && SurfacedFrom(paired, surfaced)
    requires out == ByDate(surfaced)
    ensures out == [OneMatchRow(rolled[0])]
  {
    OneRated(pow10, rolled, rated);
    OnePaired(rated, paired);
    OneSurfaced(paired, surfaced);
    SortOfOne(out, surfaced[0]);
  }


  /** What that row holds: ratings 1500 and 1500 with no difference, no
      meeting and a ratio of 0.5, rates of 0.5, and the contest kept. */
  lemma OneMatchValues(r: Row)
    ensures var o := OneMatchRow(r);
      && o.stats[Elo.P1EloColumn] == Elo.InitialRating && o.stats[Elo.P2EloColumn] == Elo.InitialRating
      && o.stats[Elo.EloDiffColumn] == 0.0
      && o.stats[HeadToHead.TotalColumn] == 0.0 && o.stats[HeadToHead.RatioColumn] == 0.5
      && o.stats[Surface.P1RateColumn] == 0.5 && o.stats[Surface.P2RateColumn] == 0.5
      && ContestOf(o) == ContestOf(r)
  {
    var r2 := Elo.WithElo(r, Elo.InitialRating, Elo.InitialRating);
    var r3 := HeadToHead.WithH2H(r2, HeadToHead.H2HRecord(0, 0, 0, 0.5));
    H2HKeepsEarlier(r2, [], HeadToHead.H2HRecord(0, 0, 0, 0.5));
    RatesKeepEarlier(r3, [], Surface.SurfaceRates(0.5, 0.5));
  }

  /** That row keeps every rolling average of the row it was made from. */
  lemma OneMatchKeepsAverages(r: Row)
    ensures forall k :: k in r.stats && IsMoyColumn(k) ==> k in OneMatchRow(r).stats && OneMatchRow(r).stats[k] == r.stats[k]
  {
    var r2 := Elo.WithElo(r, Elo.InitialRating, Elo.InitialRating);
    var r3 := HeadToHead.WithH2H(r2, HeadToHead.H2HRecord(0, 0, 0, 0.5));
    NotMoyColumn(Elo.P1EloColumn);
    NotMoyColumn(Elo.P2EloColumn);
    NotMoyColumn(Elo.EloDiffColumn);
    H2HKeepsEarlier(r2, [], HeadToHead.H2HRecord(0, 0, 0, 0.5));
    RatesKeepEarlier(r3, [], Surface.SurfaceRates(0.5, 0.5));
  }

}
