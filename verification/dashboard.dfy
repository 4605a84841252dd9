/** The pure helpers of the Streamlit dashboard: the match odds shown for
    two selected players, the list of recently active players, and the
    counting behind the most-active-players table. The current time is a
    parameter (a day number), and so is the calendar year of a day. */
module Dashboard {
  import opened Wrappers
  import opened Ordering
  import opened Seqs
  import opened Matches
  import Elo
  import opened Inference

  datatype Confidence = High | Medium | Low

  /** The odds dictionary; `eloDiff` is absent on the fallback. */
  datatype Odds = Odds(player1: real, player2: real, confidence: Confidence, eloDiff: Option<real>)

  function Abs(x: real): real {
    if x < 0.0 then -x else x
  }

  function ConfidenceOf(diff: real): Confidence {
    if diff > 200.0 then High else if diff > 100.0 then Medium else Low
  }

  const FallbackOdds: Odds := Odds(0.5, 0.5, Low, None)

  /** `calculate_match_odds`. */
  function CalculateMatchOdds(pow10: real -> real, rows: seq<Row>, player1: string, player2: string): (o: Odds)
    requires Elo.Pow10Laws(pow10)
    ensures (LatestP1Row(rows, player1).None? || LatestP1Row(rows, player2).None?) ==> o == FallbackOdds
    ensures 0.0 < o.player1 < 1.0 && o.player1 + o.player2 == 1.0
    ensures o.eloDiff.Some? <==> LatestP1Row(rows, player1).Some? && LatestP1Row(rows, player2).Some?
    ensures o.eloDiff.Some? ==>
      var r1 := RatingOf(LatestP1Row(rows, player1).value);
         var r2 := RatingOf(LatestP1Row(rows, player2).value);
         && o.player1 == Elo.Expected(pow10, r1, r2)
         && o.eloDiff.value == Abs(r1 - r2)
         && (o.confidence == High <==> Abs(r1 - r2) > 200.0)
         && (o.confidence == Medium <==> 100.0 < Abs(r1 - r2) <= 200.0)
         && (o.confidence == Low <==> Abs(r1 - r2) <= 100.0)
  {
    var a := LatestP1Row(rows, player1);
    var b := LatestP1Row(rows, player2);
    if a.None? || b.None? then FallbackOdds
    else
      var r1 := RatingOf(a.value);
      var r2 := RatingOf(b.value);
      var p := Elo.Expected(pow10, r1, r2);
      var diff := Abs(r1 - r2);
      Odds(p, 1.0 - p, ConfidenceOf(diff), Some(diff))
  }

  /** The odds and the predictor agree: both find the two players or
      neither does, and then give player 1 the same probability. */
  lemma OddsAgreeWithPredictor(pow10: real -> real, rows: seq<Row>, player1: string, player2: string)
    requires Elo.Pow10Laws(pow10)
    ensures PredictProba(pow10, rows, player1, player2).Success? <==>
      CalculateMatchOdds(pow10, rows, player1, player2).eloDiff.Some?
    ensures PredictProba(pow10, rows, player1, player2).Success? ==>
      CalculateMatchOdds(pow10, rows, player1, player2).player1 == PredictProba(pow10, rows, player1, player2).value
  {
  }

  /** Swapping the players swaps the two probabilities and keeps the
      confidence. */
  lemma OddsSwap(pow10: real -> real, rows: seq<Row>, a: string, b: string)
    requires Elo.Pow10Laws(pow10)
    ensures var ab := CalculateMatchOdds(pow10, rows, a, b);
      var ba := CalculateMatchOdds(pow10, rows, b, a);
      && ab.player1 == ba.player2 && ab.player2 == ba.player1
      && ab.confidence == ba.confidence && ab.eloDiff == ba.eloDiff
  {
    var ab := CalculateMatchOdds(pow10, rows, a, b);
    if ab.eloDiff.Some? {
      var ra := RatingOf(LatestP1Row(rows, a).value);
      var rb := RatingOf(LatestP1Row(rows, b).value);
      Elo.ExpectedComplement(pow10, ra, rb);
      assert Abs(ra - rb) == Abs(rb - ra);
    }
  }

  /** `datetime.now() - timedelta(days=years * 365)`, in days. */
  function Cutoff(now: int, years: int): int {
    now - years * 365
  }

  /** `x` plays, on either side, in some row dated on or after `cutoff`. */
  predicate ActiveSince(rows: seq<Row>, cutoff: int, x: string) {
    exists i :: 0 <= i < |rows| && rows[i].date >= cutoff && (rows[i].p1 == x || rows[i].p2 == x)
  }

  /** Both names of every recent row, in row order. */
  function RecentNames(rows: seq<Row>, cutoff: int): (names: seq<string>)
    ensures forall x :: x in names <==> ActiveSince(rows, cutoff, x)
    decreases |rows|
  {
    if rows == [] then []
    else
      var rest := RecentNames(rows[1..], cutoff);
      assert forall x :: ActiveSince(rows[1..], cutoff, x) ==> ActiveSince(rows, cutoff, x) by {
        forall x | ActiveSince(rows[1..], cutoff, x)
          ensures ActiveSince(rows, cutoff, x)
        {
          var i :| 0 <= i < |rows[1..]| && rows[1..][i].date >= cutoff && (rows[1..][i].p1 == x || rows[1..][i].p2 == x);
          assert rows[i + 1] == rows[1..][i];
        }
      }
      assert forall x :: ActiveSince(rows, cutoff, x) ==>
        (rows[0].date >= cutoff && (rows[0].p1 == x || rows[0].p2 == x)) || ActiveSince(rows[1..], cutoff, x) by {
        forall x | ActiveSince(rows, cutoff, x)
          ensures (rows[0].date >= cutoff && (rows[0].p1 == x || rows[0].p2 == x)) || ActiveSince(rows[1..], cutoff, x)
        {
          var i :| 0 <= i < |rows| && rows[i].date >= cutoff && (rows[i].p1 == x || rows[i].p2 == x);
          if i > 0 {
            assert rows[1..][i - 1] == rows[i];
          }
        }
      }
      if rows[0].date >= cutoff then [rows[0].p1, rows[0].p2] + rest else rest
  }

  /** A sequence sorted under `StrLe` without repetitions is strictly
      increasing. */
  lemma SortedDistinctIsStrict(s: seq<string>)
    requires SortedBy(StrLe, s) && NoDuplicates(s)
    ensures forall i, j :: 0 <= i < j < |s| ==> StrLt(s[i], s[j])
  {
  }

  /** A permutation of a sequence without repetitions has none. */
  lemma NoDuplicatesPermutation<T>(a: seq<T>, b: seq<T>)
    requires multiset(a) == multiset(b) && NoDuplicates(a)
    ensures NoDuplicates(b)
  {
    forall i, j | 0 <= i < j < |b|
      ensures b[i] != b[j]
    {
      if b[i] == b[j] {
        assert multiset(b)[b[i]] >= 2 by {
          assert b == b[..j] + [b[j]] + b[j + 1..];
          assert b[i] in b[..j];
        }
        MultiplicityOfDistinct(a, b[i]);
        assert false;
      }
    }
  }

  lemma {:induction false} MultiplicityOfDistinct<T>(a: seq<T>, x: T)
    requires NoDuplicates(a)
    ensures multiset(a)[x] <= 1
    decreases |a|
  {
    if a != [] {
      assert a == [a[0]] + a[1..];
      MultiplicityOfDistinct(a[1..], x);
      if a[0] == x {
        assert x !in a[1..] by {
          forall k | 0 <= k < |a[1..]|
            ensures a[1..][k] != x
          {
            assert a[1..][k] == a[k + 1];
          }
        }
      }
    }
  }

  /** `sorted(...)` of names without repetitions: strictly increasing. */
  function SortedNames(d: seq<string>): (s: seq<string>)
    requires NoDuplicates(d)
    ensures forall x :: x in s <==> x in d
    ensures forall i, j :: 0 <= i < j < |s| ==> StrLt(s[i], s[j])
  {
    StrLeIsTotalPreorder();
    var s := SortBy(d, StrLe);
    SameElements(d, s);
    NoDuplicatesPermutation(d, s);
    SortedDistinctIsStrict(s);
    s
  }

  lemma SameElements<T>(a: seq<T>, b: seq<T>)
    requires multiset(a) == multiset(b)
    ensures forall x :: x in a <==> x in b
  {
    forall x
      ensures x in a <==> x in b
    {
      assert x in a <==> x in multiset(a);
      assert x in b <==> x in multiset(b);
    }
  }

  /** `get_active_players(df, years)`: the names on either side of the rows
      dated on or after the cutoff, each once, in increasing order. */
  function ActivePlayers(rows: seq<Row>, now: int, years: int): (r: seq<string>)
    ensures forall x :: x in r <==> ActiveSince(rows, Cutoff(now, years), x)
    ensures forall i, j :: 0 <= i < j < |r| ==> StrLt(r[i], r[j])
  {
    SortedNames(Distinct(RecentNames(rows, Cutoff(now, years))))
  }

  /** A longer look-back lists everyone a shorter one lists. */
  lemma ActivePlayersMonotone(rows: seq<Row>, now: int, shorter: int, longer: int)
    requires shorter <= longer
    ensures forall x :: x in ActivePlayers(rows, now, shorter) ==> x in ActivePlayers(rows, now, longer)
  {
    forall x | x in ActivePlayers(rows, now, shorter)
      ensures x in ActivePlayers(rows, now, longer)
    {
      var i :| 0 <= i < |rows| && rows[i].date >= Cutoff(now, shorter) && (rows[i].p1 == x || rows[i].p2 == x);
      assert rows[i].date >= Cutoff(now, longer);
    }
  }

  /* ---- The most-active-players table ---- */

  /** Row predicates: `p` as P1, `p` as P2, `p` the winner, a row of the
      given calendar year, a row in its original orientation. */
  function AsP1(p: string): Row -> bool {
    (r: Row) => r.p1 == p
  }

  function AsP2(p: string): Row -> bool {
    (r: Row) => r.p2 == p
  }

  function WonBy(p: string): Row -> bool {
    (r: Row) => Winner(r) == p
  }

  function InYear(yearOf: int -> int, year: int): Row -> bool {
    (r: Row) => yearOf(r.date) == year
  }

  function IsOriginal(): Row -> bool {
    (r: Row) => r.result == 1
  }

  /** The latest calendar year of a non-empty table. */
  function LatestYear(rows: seq<Row>, yearOf: int -> int): (y: int)
    requires |rows| > 0
    ensures exists i :: 0 <= i < |rows| && yearOf(rows[i].date) == y
    ensures forall i :: 0 <= i < |rows| ==> yearOf(rows[i].date) <= y
    decreases |rows|
  {
    if |rows| == 1 then yearOf(rows[0].date)
    else
      var rest := LatestYear(rows[1..], yearOf);
      assert forall i :: 1 <= i < |rows| ==> rows[i] == rows[1..][i - 1];
      if yearOf(rows[0].date) >= rest then yearOf(rows[0].date) else rest
  }

  /** The year the table shows: the current one when the data has matches
      in it, otherwise the latest year of the data; an empty table has no
      year (pandas' `max` of nothing is NaN). */
  function SelectedYear(rows: seq<Row>, yearOf: int -> int, current: int): (y: Option<int>)
    ensures (exists i :: 0 <= i < |rows| && yearOf(rows[i].date) == current) ==> y == Some(current)
    ensures y.None? <==> rows == []
    ensures y.Some? ==> exists i :: 0 <= i < |rows| && yearOf(rows[i].date) == y.value
    ensures y.Some? && y.value != current ==> forall i :: 0 <= i < |rows| ==> yearOf(rows[i].date) <= y.value
  {
    var thisYear := Filter(rows, InYear(yearOf, current));
    if thisYear != [] then
      assert thisYear[0] in rows;
      Some(current)
    else if rows == [] then None
    else
      assert forall i :: 0 <= i < |rows| ==> rows[i] !in thisYear;
      Some(LatestYear(rows, yearOf))
  }

  /** The rows of the selected year. */
  function YearRows(rows: seq<Row>, yearOf: int -> int, y: Option<int>): (yr: seq<Row>)
    ensures forall r :: r in yr <==> r in rows && y.Some? && yearOf(r.date) == y.value
  {
    if y.None? then [] else Filter(rows, InYear(yearOf, y.value))
  }

  /** `p1_counts.add(p2_counts, fill_value=0)[p]`: the rows naming `p` as
      P1 plus the rows naming `p` as P2. */
  function MatchCount(rows: seq<Row>, p: string): nat {
    Count(rows, AsP1(p)) + Count(rows, AsP2(p))
  }

  predicate Plays(rows: seq<Row>, x: string) {
    exists i :: 0 <= i < |rows| && (rows[i].p1 == x || rows[i].p2 == x)
  }

  /** The players of a table are exactly the names with a match to count. */
  lemma PlaysIffCounted(rows: seq<Row>, x: string)
    ensures Plays(rows, x) <==> MatchCount(rows, x) > 0
  {
    CountPositive(rows, AsP1(x));
    CountPositive(rows, AsP2(x));
    if Plays(rows, x) {
      var i :| 0 <= i < |rows| && (rows[i].p1 == x || rows[i].p2 == x);
      assert AsP1(x)(rows[i]) || AsP2(x)(rows[i]);
    }
  }

  /** Both names of every row, in row order. */
  function PlayerNames(rows: seq<Row>): (names: seq<string>)
    ensures forall x :: x in names <==> Plays(rows, x)
    decreases |rows|
  {
    if rows == [] then []
    else
      var rest := PlayerNames(rows[1..]);
      assert forall x :: Plays(rows[1..], x) ==> Plays(rows, x) by {
        forall x | Plays(rows[1..], x)
          ensures Plays(rows, x)
        {
          var i :| 0 <= i < |rows[1..]| && (rows[1..][i].p1 == x || rows[1..][i].p2 == x);
          assert rows[i + 1] == rows[1..][i];
        }
      }
      assert forall x :: Plays(rows, x) ==> rows[0].p1 == x || rows[0].p2 == x || Plays(rows[1..], x) by {
        forall x | Plays(rows, x)
          ensures rows[0].p1 == x || rows[0].p2 == x || Plays(rows[1..], x)
        {
          var i :| 0 <= i < |rows| && (rows[i].p1 == x || rows[i].p2 == x);
          if i > 0 {
            assert rows[1..][i - 1] == rows[i];
          }
        }
      }
      [rows[0].p1, rows[0].p2] + rest
  }

  /** `sort_values(ascending=False)` on the match counts. */
  function MoreActive(rows: seq<Row>): (string, string) -> bool {
    (a: string, b: string) => MatchCount(rows, a) >= MatchCount(rows, b)
  }

  lemma MoreActiveIsTotalPreorder(rows: seq<Row>)
    ensures TotalPreorder(MoreActive(rows))
  {
  }

  /** `total_counts`: every player of the rows once, by decreasing number of
      matches. */
  function RankByMatches(rows: seq<Row>): (s: seq<string>)
    ensures forall x :: x in s <==> Plays(rows, x)
    ensures NoDuplicates(s)
    ensures forall i, j :: 0 <= i < j < |s| ==> MatchCount(rows, s[i]) >= MatchCount(rows, s[j])
  {
    var d := Distinct(PlayerNames(rows));
    var le := MoreActive(rows);
    MoreActiveIsTotalPreorder(rows);
    var s := SortBy(d, le);
    SameElements(d, s);
    NoDuplicatesPermutation(d, s);
    assert forall i, j :: 0 <= i < j < |s| ==> le(s[i], s[j]);
    s
  }

  /** `total_counts.head(top_n)`: distinct players by decreasing number of
      matches, and nobody left out has played more than anyone listed. */
  function TopPlayers(rows: seq<Row>, topN: int): (r: seq<string>)
    ensures NoDuplicates(r)
    ensures forall i :: 0 <= i < |r| ==> Plays(rows, r[i])
    ensures forall i, j :: 0 <= i < j < |r| ==> MatchCount(rows, r[i]) >= MatchCount(rows, r[j])
    ensures forall x :: Plays(rows, x) && x !in r ==> forall i :: 0 <= i < |r| ==> MatchCount(rows, x) <= MatchCount(rows, r[i])
    ensures topN >= 0 ==> |r| <= topN && (|r| < topN ==> forall x :: Plays(rows, x) ==> x in r)
  {
    var s := RankByMatches(rows);
    var r := Head(s, topN);
    HeadKeepsRanking(rows, s, r);
    r
  }

  lemma HeadKeepsRanking(rows: seq<Row>, s: seq<string>, r: seq<string>)
    requires NoDuplicates(s)
    requires forall i, j :: 0 <= i < j < |s| ==> MatchCount(rows, s[i]) >= MatchCount(rows, s[j])
    requires |r| <= |s| && r == s[..|r|]
    ensures NoDuplicates(r)
    ensures forall i :: 0 <= i < |r| ==> r[i] in s
    ensures forall i, j :: 0 <= i < j < |r| ==> MatchCount(rows, r[i]) >= MatchCount(rows, r[j])
    ensures forall x :: x in s && x !in r ==> forall i :: 0 <= i < |r| ==> MatchCount(rows, x) <= MatchCount(rows, r[i])
  {
    assert forall i :: 0 <= i < |r| ==> r[i] == s[i];
    assert NoDuplicates(r) by {
      forall i, j | 0 <= i < j < |r|
        ensures r[i] != r[j]
      {
        assert r[i] == s[i] && r[j] == s[j];
      }
    }
    forall x, i | x in s && x !in r && 0 <= i < |r|
      ensures MatchCount(rows, x) <= MatchCount(rows, r[i])
    {
      var k :| 0 <= k < |s| && s[k] == x;
      assert |r| <= k;
    }
  }

  /** One line of the table: the player, their matches, their wins, and the
      win rate in percent (0 without matches). */
  datatype PlayerActivity = PlayerActivity(player: string, matches: nat, wins: nat, winRate: real)

  function WinRate(wins: nat, matches: nat): real {
    if matches > 0 then wins as real / matches as real * 100.0 else 0.0
  }

  /** A table line as the dashboard computes it: every row naming the
      player as P1 counts as a win. */
  function ActivityAsWritten(rows: seq<Row>, p: string): PlayerActivity {
    var wins := Count(rows, AsP1(p));
    PlayerActivity(p, MatchCount(rows, p), wins, WinRate(wins, MatchCount(rows, p)))
  }

  /** A ranked activity table over the rows `yr`: distinct players by
      decreasing match count, each line's matches, wins and rate read off
      `yr` (a win being a row `wonBy(player)` accepts), and nobody left out
      who played more than a listed player; at most `topN` lines, and
      every player listed when there are fewer (`head(top_n)`). */
  ghost predicate RankedActivity(yr: seq<Row>, lines: seq<PlayerActivity>, wonBy: string -> (Row -> bool), topN: int) {
    && (forall i, j :: 0 <= i < j < |lines| ==> lines[i].player != lines[j].player && lines[i].matches >= lines[j].matches)
    && (forall i :: 0 <= i < |lines| ==>
          && Plays(yr, lines[i].player)
          && lines[i].matches == MatchCount(yr, lines[i].player) > 0
          && lines[i].wins == Count(yr, wonBy(lines[i].player))
          && lines[i].winRate == lines[i].wins as real / lines[i].matches as real * 100.0)
    && (forall x :: Plays(yr, x) && (forall i :: 0 <= i < |lines| ==> lines[i].player != x) ==>
          forall i :: 0 <= i < |lines| ==> MatchCount(yr, x) <= lines[i].matches)
    && (topN >= 0 ==> |lines| <= topN)
    && (|lines| < topN ==> forall x :: Plays(yr, x) ==> exists i :: 0 <= i < |lines| && lines[i].player == x)
  }

  /** The lines of the table as written for the rows `yr` it counts. */
  function ActiveLines(yr: seq<Row>, topN: int): (lines: seq<PlayerActivity>)
    ensures RankedActivity(yr, lines, AsP1, topN)
  {
    var top := TopPlayers(yr, topN);
    var lines := MapSeq(top, (p: string) => ActivityAsWritten(yr, p));
    ActivityLines(yr, top, lines, AsP1, topN);
    lines
  }

  /** `get_most_active_players_current_year(df, top_n)`, as written, on the
      rows it is given; the average rating and last-match columns are left
      out. */
  function MostActivePlayers(rows: seq<Row>, yearOf: int -> int, current: int, topN: int): (res: (seq<PlayerActivity>, Option<int>))
    ensures res.1 == SelectedYear(rows, yearOf, current)
    ensures RankedActivity(YearRows(rows, yearOf, res.1), res.0, AsP1, topN)
  {
    var y := SelectedYear(rows, yearOf, current);
    (ActiveLines(YearRows(rows, yearOf, y), topN), y)
  }

  /** What the lines of a table built from a ranking have in common,
      whichever way the wins are counted. */
  lemma ActivityLines(yr: seq<Row>, top: seq<string>, lines: seq<PlayerActivity>, wonBy: string -> (Row -> bool), topN: int)
    requires |lines| == |top|
    requires forall i :: 0 <= i < |top| ==>
      && lines[i].player == top[i]
      && lines[i].matches == MatchCount(yr, top[i])
      && lines[i].wins == Count(yr, wonBy(top[i]))
      && lines[i].winRate == WinRate(lines[i].wins, lines[i].matches)
    requires NoDuplicates(top)
    requires forall i :: 0 <= i < |top| ==> Plays(yr, top[i])
    requires forall i, j :: 0 <= i < j < |top| ==> MatchCount(yr, top[i]) >= MatchCount(yr, top[j])
    requires forall x :: Plays(yr, x) && x !in top ==> forall i :: 0 <= i < |top| ==> MatchCount(yr, x) <= MatchCount(yr, top[i])
    requires topN >= 0 ==> |top| <= topN && (|top| < topN ==> forall x :: Plays(yr, x) ==> x in top)
    ensures RankedActivity(yr, lines, wonBy, topN)
  {
    forall i | 0 <= i < |top|
      ensures MatchCount(yr, top[i]) > 0
    {
      PlaysIffCounted(yr, top[i]);
    }
    forall x | Plays(yr, x) && (forall i :: 0 <= i < |lines| ==> lines[i].player != x)
      ensures x !in top
    {
    }
  }

  /** `rows` is the augmented table built from `orig`: the original
      matches and one mirror per match, in any order. */
  predicate Augmented(rows: seq<Row>, orig: seq<Row>, mirrors: seq<Row>) {
    && |mirrors| == |orig|
    && (forall i :: 0 <= i < |orig| ==> IsMirrorOf(mirrors[i], orig[i]))
    && multiset(rows) == multiset(orig) + multiset(mirrors)
  }

  /** Over an augmented table, the rows of a year naming `p` as P1 are the
      original rows of that year naming `p` on either side, and so are the
      rows naming `p` as P2. */
  lemma AugmentedCounts(rows: seq<Row>, orig: seq<Row>, mirrors: seq<Row>, inY: Row -> bool, p: string)
    requires Augmented(rows, orig, mirrors)
    requires forall i :: 0 <= i < |orig| ==> inY(mirrors[i]) == inY(orig[i])
    ensures Count(rows, Both(inY, AsP1(p))) == Count(orig, Both(inY, AsP1(p))) + Count(orig, Both(inY, AsP2(p)))
    ensures Count(rows, Both(inY, AsP2(p))) == Count(orig, Both(inY, AsP1(p))) + Count(orig, Both(inY, AsP2(p)))
  {
    var b1 := Both(inY, AsP1(p));
    var b2 := Both(inY, AsP2(p));
    CountUnion(rows, orig, mirrors, b1);
    CountUnion(rows, orig, mirrors, b2);
    forall i | 0 <= i < |orig|
      ensures b1(mirrors[i]) == b2(orig[i]) && b2(mirrors[i]) == b1(orig[i])
    {
      assert IsMirrorOf(mirrors[i], orig[i]);
    }
    CountPointwise(mirrors, orig, b1, b2);
    CountPointwise(mirrors, orig, b2, b1);
  }

  /** On an augmented table a player appears as often as P1 as as P2, and
      each side counts twice the player's matches of the original rows. */
  lemma AugmentedSidesBalance(rows: seq<Row>, orig: seq<Row>, mirrors: seq<Row>, yearOf: int -> int, y: int, p: string)
    requires Augmented(rows, orig, mirrors)
    ensures var yr := Filter(rows, InYear(yearOf, y));
      && Count(yr, AsP1(p)) == Count(yr, AsP2(p))
      && MatchCount(yr, p) == 2 * MatchCount(Filter(orig, InYear(yearOf, y)), p)
  {
    var inY := InYear(yearOf, y);
    forall i | 0 <= i < |orig|
      ensures inY(mirrors[i]) == inY(orig[i])
    {
      assert IsMirrorOf(mirrors[i], orig[i]);
    }
    AugmentedCounts(rows, orig, mirrors, inY, p);
    CountFilter(rows, inY, AsP1(p));
    CountFilter(rows, inY, AsP2(p));
    CountFilter(orig, inY, AsP1(p));
    CountFilter(orig, inY, AsP2(p));
  }

  lemma HalfRate(w: nat)
    requires w > 0
    ensures w as real / (2 * w) as real * 100.0 == 50.0
  {
    assert (2 * w) as real == 2.0 * w as real;
  }

  /** As written, the table reports on the augmented table every player at
      twice their matches, with a win for exactly half of them: a win rate
      of 50% whatever the results. */
  lemma MostActiveOnAugmentedIsHalf(rows: seq<Row>, orig: seq<Row>, mirrors: seq<Row>, yearOf: int -> int, current: int, topN: int)
    requires Augmented(rows, orig, mirrors)
    ensures var (lines, y) := MostActivePlayers(rows, yearOf, current, topN);
      forall i :: 0 <= i < |lines| ==>
        && y.Some?
        && lines[i].matches == 2 * MatchCount(Filter(orig, InYear(yearOf, y.value)), lines[i].player)
        && 2 * lines[i].wins == lines[i].matches
        && lines[i].winRate == 50.0
  {
    var (lines, y) := MostActivePlayers(rows, yearOf, current, topN);
    var yr := YearRows(rows, yearOf, y);
    forall i | 0 <= i < |lines|
      ensures && y.Some?
              && lines[i].matches == 2 * MatchCount(Filter(orig, InYear(yearOf, y.value)), lines[i].player)
              && 2 * lines[i].wins == lines[i].matches
              && lines[i].winRate == 50.0
    {
      var line := lines[i];
      assert Plays(yr, line.player);
      assert y.Some?;
      assert yr == Filter(rows, InYear(yearOf, y.value));
      AugmentedSidesBalance(rows, orig, mirrors, yearOf, y.value, line.player);
      assert line.matches == 2 * line.wins;
      HalfRate(line.wins);
    }
  }

  /** A table line counted over the original orientation of each match:
      the wins are the matches the player won. */
  function Activity(rows: seq<Row>, p: string): PlayerActivity {
    var wins := Count(rows, WonBy(p));
    PlayerActivity(p, MatchCount(rows, p), wins, WinRate(wins, MatchCount(rows, p)))
  }

  /** The lines of the corrected table for the rows `yc` it counts. */
  function ContestLines(yc: seq<Row>, topN: int): (lines: seq<PlayerActivity>)
    ensures RankedActivity(yc, lines, WonBy, topN)
  {
    var top := TopPlayers(yc, topN);
    var lines := MapSeq(top, (p: string) => Activity(yc, p));
    ActivityLines(yc, top, lines, WonBy, topN);
    lines
  }

  /** The most-active-players table counted over the rows in their original
      orientation (`result == 1`), so that a match counts once and a win is
      a match the player won, on the augmented table as on the plain one. */
  function MostActivePlayersCorrected(rows: seq<Row>, yearOf: int -> int, current: int, topN: int): (res: (seq<PlayerActivity>, Option<int>))
    ensures res.1 == SelectedYear(rows, yearOf, current)
    ensures RankedActivity(Filter(YearRows(rows, yearOf, res.1), IsOriginal()), res.0, WonBy, topN)
  {
    var y := SelectedYear(rows, yearOf, current);
    (ContestLines(Filter(YearRows(rows, yearOf, y), IsOriginal()), topN), y)
  }

  /** Over an augmented table whose originals all read `result == 1`, the
      original-orientation rows of a year count like the original matches
      of that year. */
  lemma OriginalsCount(rows: seq<Row>, orig: seq<Row>, mirrors: seq<Row>, inY: Row -> bool, q: Row -> bool)
    requires Augmented(rows, orig, mirrors)
    requires forall i :: 0 <= i < |orig| ==> orig[i].result == 1
    ensures Count(Filter(Filter(rows, inY), IsOriginal()), q) == Count(Filter(orig, inY), q)
  {
    var b := Both(inY, Both(IsOriginal(), q));
    CountFilter(Filter(rows, inY), IsOriginal(), q);
    CountFilter(rows, inY, Both(IsOriginal(), q));
    CountUnion(rows, orig, mirrors, b);
    forall i | 0 <= i < |mirrors|
      ensures !b(mirrors[i])
    {
      assert IsMirrorOf(mirrors[i], orig[i]);
    }
    CountNone(mirrors, b);
    CountPointwise(orig, orig, b, Both(inY, q));
    CountFilter(orig, inY, q);
  }

  /** Counted over the original orientation, the table of an augmented
      table reports each listed player's matches and wins among the
      original matches of the year. */
  lemma CorrectedCountsContests(rows: seq<Row>, orig: seq<Row>, mirrors: seq<Row>, yearOf: int -> int, current: int, topN: int)
    requires Augmented(rows, orig, mirrors)
    requires forall i :: 0 <= i < |orig| ==> orig[i].result == 1
    ensures var (lines, y) := MostActivePlayersCorrected(rows, yearOf, current, topN);
      forall i :: 0 <= i < |lines| ==>
        && y.Some?
        && lines[i].matches == MatchCount(Filter(orig, InYear(yearOf, y.value)), lines[i].player)
        && lines[i].wins == Count(Filter(orig, InYear(yearOf, y.value)), WonBy(lines[i].player))
  {
    var (lines, y) := MostActivePlayersCorrected(rows, yearOf, current, topN);
    forall i | 0 <= i < |lines|
      ensures && y.Some?
              && lines[i].matches == MatchCount(Filter(orig, InYear(yearOf, y.value)), lines[i].player)
              && lines[i].wins == Count(Filter(orig, InYear(yearOf, y.value)), WonBy(lines[i].player))
    {
      var yc := Filter(YearRows(rows, yearOf, y), IsOriginal());
      assert Plays(yc, lines[i].player);
      assert y.Some?;
      CorrectedLine(rows, orig, mirrors, InYear(yearOf, y.value), lines[i]);
    }
  }

  lemma CorrectedLine(rows: seq<Row>, orig: seq<Row>, mirrors: seq<Row>, inY: Row -> bool, line: PlayerActivity)
    requires Augmented(rows, orig, mirrors)
    requires forall i :: 0 <= i < |orig| ==> orig[i].result == 1
    requires line.matches == MatchCount(Filter(Filter(rows, inY), IsOriginal()), line.player)
    requires line.wins == Count(Filter(Filter(rows, inY), IsOriginal()), WonBy(line.player))
    ensures line.matches == MatchCount(Filter(orig, inY), line.player)
    ensures line.wins == Count(Filter(orig, inY), WonBy(line.player))
  {
    OriginalsCount(rows, orig, mirrors, inY, AsP1(line.player));
    OriginalsCount(rows, orig, mirrors, inY, AsP2(line.player));
    OriginalsCount(rows, orig, mirrors, inY, WonBy(line.player));
  }
}
