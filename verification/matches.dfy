/** The match record the feature engines, the predictor and the dashboard
    read: one row of the silver/gold table.

    `result == 1` means P1 won; the engines treat any other value as a P2
    win. `stats` holds the numeric columns (raw counters and, once the
    engines have run, the derived features). Dates are day numbers: only
    their order matters to the engines. */
module Matches {
  import opened Ordering

  datatype Row = Row(
    p1: string,
    p2: string,
    date: int,
    surface: string,
    result: int,
    stats: map<string, real>)

  /** The winner of the row as the engines read it: P1 iff `result == 1`. */
  function Winner(r: Row): string {
    if r.result == 1 then r.p1 else r.p2
  }

  function Loser(r: Row): string {
    if r.result == 1 then r.p2 else r.p1
  }

  /** Writes one numeric column of one row (`df[name] = values`). */
  function WithStat(r: Row, name: string, v: real): (r': Row)
    ensures r'.stats.Keys == r.stats.Keys + {name}
    ensures r'.stats[name] == v
    ensures forall k :: k in r.stats && k != name ==> r'.stats[k] == r.stats[k]
  {
    r.(stats := r.stats[name := v])
  }

  /** The contest a row describes, without its numeric columns. */
  datatype Contest = Contest(p1: string, p2: string, date: int, surface: string, result: int)

  function ContestOf(r: Row): Contest {
    Contest(r.p1, r.p2, r.date, r.surface, r.result)
  }

  /** `m` is the mirror the augmentation step makes of `r`: players swapped,
      same day and surface, `result` set to -1. */
  predicate IsMirrorOf(m: Row, r: Row) {
    m.p1 == r.p2 && m.p2 == r.p1 && m.date == r.date && m.surface == r.surface && m.result == -1
  }

  /** Sort key `tourney_date`. */
  predicate DateLe(a: Row, b: Row) {
    a.date <= b.date
  }

  /** Sort key `['P1', 'tourney_date']`. */
  predicate PlayerDateLe(a: Row, b: Row) {
    StrLt(a.p1, b.p1) || (a.p1 == b.p1 && a.date <= b.date)
  }

  lemma PlayerDateLeIsTotalPreorder()
    ensures TotalPreorder(PlayerDateLe)
  {
    forall a: Row, b: Row
      ensures PlayerDateLe(a, b) || PlayerDateLe(b, a)
    {
      StrLeTotal(a.p1, b.p1);
    }
    forall a: Row, b: Row, c: Row | PlayerDateLe(a, b) && PlayerDateLe(b, c)
      ensures PlayerDateLe(a, c)
    {
      if a.p1 != b.p1 && b.p1 != c.p1 {
        StrLeTransitive(a.p1, b.p1, c.p1);
        if a.p1 == c.p1 {
          StrLeAntisymmetric(a.p1, b.p1);
        }
      }
    }
  }

  /** `df.sort_values('tourney_date')`. */
  function ByDate(rows: seq<Row>): (r: seq<Row>)
    ensures multiset(r) == multiset(rows)
    ensures |r| == |rows|
    ensures forall i, j :: 0 <= i < j < |r| ==> r[i].date <= r[j].date
  {
    assert TotalPreorder(DateLe);
    SortBy(rows, DateLe)
  }

  /** `df.sort_values(['P1', 'tourney_date'])`. */
  function ByPlayerDate(rows: seq<Row>): (r: seq<Row>)
    ensures multiset(r) == multiset(rows)
    ensures |r| == |rows|
    ensures SortedBy(PlayerDateLe, r)
  {
    PlayerDateLeIsTotalPreorder();
    SortBy(rows, PlayerDateLe)
  }

  /** The players named on either side of some row. */
  function Players(rows: seq<Row>): (ps: set<string>)
    ensures forall i :: 0 <= i < |rows| ==> rows[i].p1 in ps && rows[i].p2 in ps
    decreases |rows|
  {
    if rows == [] then {}
    else Players(rows[..|rows| - 1]) + {rows[|rows| - 1].p1, rows[|rows| - 1].p2}
  }

  lemma {:induction false} NotInPlayers(rows: seq<Row>, p: string)
    requires forall i :: 0 <= i < |rows| ==> rows[i].p1 != p && rows[i].p2 != p
    ensures p !in Players(rows)
    decreases |rows|
  {
    if rows != [] {
      NotInPlayers(rows[..|rows| - 1], p);
    }
  }
}
