/** The rolling averages of `calculate_rolling_stats`: rows are put in
    `['P1', 'tourney_date']` order and, for every listed column the table
    holds, each row gets `<column>_moy`, the mean of that column over the
    last `window` rows of the same P1 up to and including itself (fewer at
    the start of a player's history: `min_periods=1`).

    A column counts as present when every row holds it; missing values
    (NaN) are outside the model. */
module Rolling {
  import opened Wrappers
  import opened Ordering
  import opened Seqs
  import opened Matches

  /** `config.rolling_window`'s default. */
  const DefaultWindow: int := 5

  /** pandas refuses a window below 1 once `min_periods=1` is asked for. */
  datatype RollingError = InvalidWindow(window: int)

  function MoyName(col: string): string {
    col + "_moy"
  }

  predicate Present(rows: seq<Row>, col: string) {
    forall i :: 0 <= i < |rows| ==> col in rows[i].stats
  }

  function Sum(xs: seq<real>): real
    decreases |xs|
  {
    if xs == [] then 0.0 else Sum(xs[..|xs| - 1]) + xs[|xs| - 1]
  }

  function Mean(xs: seq<real>): real
    requires |xs| > 0
  {
    Sum(xs) / |xs| as real
  }

  /** The last `min(w, |vals|)` values. */
  function Window(vals: seq<real>, w: int): (win: seq<real>)
    requires w >= 1
    ensures |win| == if w <= |vals| then w else |vals|
    ensures win == vals[|vals| - |win|..]
  {
    if w <= |vals| then vals[|vals| - w..] else vals
  }

  /** Each row's P1 and its value in the column. */
  function Keyed(s: seq<Row>, col: string): (ks: seq<(string, real)>)
    requires Present(s, col)
    ensures |ks| == |s|
    ensures forall j :: 0 <= j < |s| ==> ks[j] == (s[j].p1, s[j].stats[col])
  {
    seq(|s|, j requires 0 <= j < |s| && col in s[j].stats => (s[j].p1, s[j].stats[col]))
  }

  /** The values keyed by player `p`, in order. */
  function History(ks: seq<(string, real)>, p: string): seq<real>
    decreases |ks|
  {
    if ks == [] then []
    else
      var last := ks[|ks| - 1];
      History(ks[..|ks| - 1], p) + (if last.0 == p then [last.1] else [])
  }

  lemma HistoryStep(ks: seq<(string, real)>, i: int, p: string)
    requires 0 <= i < |ks|
    ensures History(ks[..i + 1], p) == History(ks[..i], p) + (if ks[i].0 == p then [ks[i].1] else [])
  {
    assert ks[..i + 1][..i] == ks[..i];
  }

  /** A player's history has one value per row where the player is P1. */
  lemma {:induction false} HistoryLength(ks: seq<(string, real)>, p: string)
    ensures |History(ks, p)| == Count(ks, (e: (string, real)) => e.0 == p)
    decreases |ks|
  {
    if ks != [] {
      var prev := ks[..|ks| - 1];
      HistoryLength(prev, p);
      assert ks == prev + [ks[|ks| - 1]];
      CountAppend(prev, [ks[|ks| - 1]], (e: (string, real)) => e.0 == p);
    }
  }

  /** Every value of a player's history comes from one of that player's
      rows. */
  lemma {:induction false} HistoryValuesFromOwnRows(ks: seq<(string, real)>, p: string, k: int)
    requires 0 <= k < |History(ks, p)|
    ensures exists j :: 0 <= j < |ks| && ks[j] == (p, History(ks, p)[k])
    decreases |ks|
  {
    var prev := ks[..|ks| - 1];
    if k < |History(prev, p)| {
      HistoryValuesFromOwnRows(prev, p, k);
      var j :| 0 <= j < |prev| && prev[j] == (p, History(prev, p)[k]);
      assert ks[j] == prev[j];
    } else {
      assert ks[|ks| - 1] == (p, History(ks, p)[k]);
    }
  }

  /** The value `<col>_moy` of row `i` of `s`: the mean of the window over the
      history of the row's P1 up to and including the row. */
  function RollingValue(s: seq<Row>, i: int, col: string, w: int): real
    requires w >= 1 && Present(s, col) && 0 <= i < |s|
  {
    var ks := Keyed(s, col);
    HistoryStep(ks, i, s[i].p1);
    Mean(Window(History(ks[..i + 1], s[i].p1), w))
  }

  /** The row's own value is the newest of the window. */
  lemma OwnValueIsNewest(s: seq<Row>, i: int, col: string, w: int)
    requires w >= 1 && Present(s, col) && 0 <= i < |s|
    ensures var win := Window(History(Keyed(s, col)[..i + 1], s[i].p1), w);
      |win| > 0 && win[|win| - 1] == s[i].stats[col]
  {
    HistoryStep(Keyed(s, col), i, s[i].p1);
  }

  /** A player's first row, or any row with a window of one, averages to
      its own value. */
  lemma FirstRowIsOwnValue(s: seq<Row>, i: int, col: string, w: int)
    requires w >= 1 && Present(s, col) && 0 <= i < |s|
    requires w == 1 || forall j :: 0 <= j < i ==> s[j].p1 != s[i].p1
    ensures RollingValue(s, i, col, w) == s[i].stats[col]
  {
    var ks := Keyed(s, col);
    var p := s[i].p1;
    HistoryStep(ks, i, p);
    if w != 1 {
      HistoryLength(ks[..i], p);
      CountNone(ks[..i], (e: (string, real)) => e.0 == p);
    }
    var win := Window(History(ks[..i + 1], p), w);
    assert win == [s[i].stats[col]];
    assert Sum(win) == Sum([]) + s[i].stats[col];
  }

  lemma {:induction false} SumBounds(xs: seq<real>, lo: real, hi: real)
    requires forall k :: 0 <= k < |xs| ==> lo <= xs[k] <= hi
    ensures |xs| as real * lo <= Sum(xs) <= |xs| as real * hi
    decreases |xs|
  {
    if xs != [] {
      SumBounds(xs[..|xs| - 1], lo, hi);
    }
  }

  /** A mean lies between any bounds of the values it averages. */
  lemma MeanBounds(xs: seq<real>, lo: real, hi: real)
    requires |xs| > 0
    requires forall k :: 0 <= k < |xs| ==> lo <= xs[k] <= hi
    ensures lo <= Mean(xs) <= hi
  {
    SumBounds(xs, lo, hi);
    QuotientBounds(Sum(xs), |xs| as real, lo, hi);
  }

  /** Dividing by a positive count keeps bounds scaled by that count. */
  lemma QuotientBounds(a: real, n: real, lo: real, hi: real)
    requires n > 0.0 && n * lo <= a <= n * hi
    ensures lo <= a / n <= hi
  {
    assert lo == (n * lo) / n && hi == (n * hi) / n;
  }

  /** Bounds on a player's values bound every value of the history. */
  lemma HistoryBounds(ks: seq<(string, real)>, p: string, lo: real, hi: real)
    requires forall j :: 0 <= j < |ks| && ks[j].0 == p ==> lo <= ks[j].1 <= hi
    ensures forall k :: 0 <= k < |History(ks, p)| ==> lo <= History(ks, p)[k] <= hi
  {
    forall k | 0 <= k < |History(ks, p)|
      ensures lo <= History(ks, p)[k] <= hi
    {
      HistoryValuesFromOwnRows(ks, p, k);
    }
  }

  /** A rolling average lies between the smallest and largest value the
      player showed in that column, up to and including the row. */
  lemma RollingValueBounds(s: seq<Row>, i: int, col: string, w: int, lo: real, hi: real)
    requires w >= 1 && Present(s, col) && 0 <= i < |s|
    requires forall j :: 0 <= j <= i && s[j].p1 == s[i].p1 ==> lo <= s[j].stats[col] <= hi
    ensures lo <= RollingValue(s, i, col, w) <= hi
  {
    var ks := Keyed(s, col);
    var p := s[i].p1;
    var pre := ks[..i + 1];
    HistoryStep(ks, i, p);
    var h := History(pre, p);
    var win := Window(h, w);
    forall j | 0 <= j < |pre| && pre[j].0 == p
      ensures lo <= pre[j].1 <= hi
    {
      assert pre[j] == ks[j] == (s[j].p1, s[j].stats[col]);
    }
    HistoryBounds(pre, p, lo, hi);
    forall k | 0 <= k < |win|
      ensures lo <= win[k] <= hi
    {
      assert win[k] == h[|h| - |win| + k];
    }
    MeanBounds(win, lo, hi);
  }

  /** The history a map of per-player histories holds for `p`. */
  function HistoryIn(hist: map<string, seq<real>>, p: string): seq<real> {
    if p in hist then hist[p] else []
  }

  /** The value the loop computes for row `i` from the history before it is
      the row's rolling value. */
  lemma RollingStep(s: seq<Row>, i: int, col: string, w: int, h: seq<real>)
    requires w >= 1 && Present(s, col) && 0 <= i < |s|
    requires h == History(Keyed(s, col)[..i], s[i].p1) + [s[i].stats[col]]
    ensures |Window(h, w)| > 0 && Mean(Window(h, w)) == RollingValue(s, i, col, w)
  {
    HistoryStep(Keyed(s, col), i, s[i].p1);
  }

  /** Appending row `i`'s value to its player's history keeps the map equal
      to the histories of the rows seen so far. */
  lemma HistoriesStep(ks: seq<(string, real)>, i: int, hist: map<string, seq<real>>, hist': map<string, seq<real>>)
    requires 0 <= i < |ks|
    requires forall p :: HistoryIn(hist, p) == History(ks[..i], p)
    requires hist' == hist[ks[i].0 := HistoryIn(hist, ks[i].0) + [ks[i].1]]
    ensures forall p :: HistoryIn(hist', p) == History(ks[..i + 1], p)
  {
    forall p
      ensures HistoryIn(hist', p) == History(ks[..i + 1], p)
    {
      HistoryStep(ks, i, p);
    }
  }

  /** The per-row column `<col>_moy` over rows in their traversal order: the
      loop keeps every player's history so far. */
  method RollingColumn(s: seq<Row>, col: string, w: int) returns (out: seq<Row>)
    requires w >= 1 && Present(s, col)
    ensures |out| == |s|
    ensures forall i :: 0 <= i < |s| ==> out[i] == WithStat(s[i], MoyName(col), RollingValue(s, i, col, w))
  {
    ghost var ks := Keyed(s, col);
    var hist: map<string, seq<real>> := map[];
    out := [];
    var i := 0;
    while i < |s|
      invariant 0 <= i <= |s|
      invariant |out| == i
      invariant forall p :: HistoryIn(hist, p) == History(ks[..i], p)
      invariant forall j :: 0 <= j < i ==> out[j] == WithStat(s[j], MoyName(col), RollingValue(s, j, col, w))
    {
      var row := s[i];
      var h := HistoryIn(hist, row.p1) + [row.stats[col]];
      RollingStep(s, i, col, w, h);
      ghost var before := out;
      out := out + [WithStat(row, MoyName(col), Mean(Window(h, w)))];
      forall j | 0 <= j < i + 1
        ensures out[j] == WithStat(s[j], MoyName(col), RollingValue(s, j, col, w))
      {
        if j < i {
          assert out[j] == before[j];
        }
      }
      assert ks[i] == (row.p1, row.stats[col]);
      HistoriesStep(ks, i, hist, hist[row.p1 := h]);
      hist := hist[row.p1 := h];
      i := i + 1;
    }
  }

  /** Writing a column keeps every row's contest, hence any order on
      contests. */
  lemma SortedKept(s: seq<Row>, out: seq<Row>)
    requires |out| == |s| && SortedBy(PlayerDateLe, s)
    requires forall i :: 0 <= i < |s| ==> ContestOf(out[i]) == ContestOf(s[i])
    ensures SortedBy(PlayerDateLe, out)
  {
    forall i, j | 0 <= i < j < |out|
      ensures PlayerDateLe(out[i], out[j])
    {
      assert ContestOf(out[i]) == ContestOf(s[i]) && ContestOf(out[j]) == ContestOf(s[j]);
      assert PlayerDateLe(s[i], s[j]);
    }
  }

  /** Whether every row holds a column does not depend on the row order. */
  lemma PresentPermutation(a: seq<Row>, b: seq<Row>, col: string)
    requires multiset(a) == multiset(b)
    ensures Present(a, col) <==> Present(b, col)
  {
    if Present(a, col) {
      forall i | 0 <= i < |b| ensures col in b[i].stats {
        assert b[i] in multiset(a);
      }
    }
    if Present(b, col) {
      forall i | 0 <= i < |a| ensures col in a[i].stats {
        assert a[i] in multiset(b);
      }
    }
  }

  /** Two columns with one `_moy` name are one column. */
  lemma MoyNameInjective(c: string, d: string)
    requires MoyName(c) == MoyName(d)
    ensures c == d
  {
    assert c == MoyName(c)[..|c|];
  }

  /** A name ending in `_moy`, as every rolling average's does. */
  predicate IsMoyColumn(k: string) {
    |k| >= 4 && k[|k| - 4..] == "_moy"
  }

  lemma MoyNameIsMoyColumn(c: string)
    ensures IsMoyColumn(MoyName(c))
  {
    assert MoyName(c)[|MoyName(c)| - 4..] == "_moy";
  }

  /** Every rolling-average name ends in `y`. */
  lemma MoyColumnEndsInY(k: string)
    ensures IsMoyColumn(k) ==> k[|k| - 1] == 'y'
  {
    if IsMoyColumn(k) {
      assert k[|k| - 4..][3] == k[|k| - 1];
    }
  }

  /** A name whose last letter is not `y` is no rolling average. */
  lemma NotMoyColumn(k: string)
    requires |k| > 0 && k[|k| - 1] != 'y'
    ensures !IsMoyColumn(k)
  {
    MoyColumnEndsInY(k);
  }

  /** No listed column is itself a rolling average, so no average overwrites
      a column that is still to be averaged. */
  predicate NoMoyClash(columns: seq<string>) {
    forall c :: c in columns ==> !IsMoyColumn(c)
  }

  /** The `_moy` names of the listed columns every row of `s` holds. */
  function MoyKeys(s: seq<Row>, listed: seq<string>): set<string> {
    set c | c in listed && Present(s, c) :: MoyName(c)
  }

  /** The `_moy` column of every listed column `s` holds carries the
      rolling value of row `i`. */
  ghost predicate MoyValues(s: seq<Row>, i: int, r: Row, listed: seq<string>, w: int)
    requires 0 <= i < |s|
  {
    forall c :: c in listed && Present(s, c) ==>
      w >= 1 && MoyName(c) in r.stats && r.stats[MoyName(c)] == RollingValue(s, i, c, w)
  }

  /** Every column of row `i` that no average overwrites keeps its value. */
  ghost predicate OthersKept(s: seq<Row>, i: int, r: Row, listed: seq<string>)
    requires 0 <= i < |s|
  {
    forall k :: k in s[i].stats && k !in MoyKeys(s, listed) ==> k in r.stats && r.stats[k] == s[i].stats[k]
  }

  /** Row `r` is row `i` of `s` with the listed columns averaged: the same
      contest, a `_moy` column for exactly the listed columns `s` holds,
      each with its rolling value, and every other column as it was. */
  ghost predicate RowRolled(s: seq<Row>, i: int, r: Row, listed: seq<string>, w: int)
    requires 0 <= i < |s|
  {
    && ContestOf(r) == ContestOf(s[i])
    && r.stats.Keys == s[i].stats.Keys + MoyKeys(s, listed)
    && MoyValues(s, i, r, listed, w)
    && OthersKept(s, i, r, listed)
  }

  /** Every row of `out` is the row of `s` at its position, averaged. */
  ghost predicate AllRolled(s: seq<Row>, out: seq<Row>, listed: seq<string>, w: int) {
    |out| == |s| && forall i :: 0 <= i < |s| ==> RowRolled(s, i, out[i], listed, w)
  }

  /** Before any column is averaged, every row is as it was. */
  lemma NothingRolled(s: seq<Row>, w: int)
    ensures AllRolled(s, s, [], w)
  {
    assert MoyKeys(s, []) == {};
  }

  lemma MoyKeysSnoc(s: seq<Row>, listed: seq<string>, col: string)
    ensures MoyKeys(s, listed + [col]) == MoyKeys(s, listed) + (if Present(s, col) then {MoyName(col)} else {})
  {
  }

  /** A rolling value reads only the players and the column's values. */
  lemma RollingValueAgree(a: seq<Row>, b: seq<Row>, i: int, col: string, w: int)
    requires w >= 1 && Present(a, col) && Present(b, col) && 0 <= i < |a| == |b|
    requires forall j :: 0 <= j < |a| ==> a[j].p1 == b[j].p1 && a[j].stats[col] == b[j].stats[col]
    ensures RollingValue(a, i, col, w) == RollingValue(b, i, col, w)
  {
    assert Keyed(a, col) == Keyed(b, col);
  }

  /** Averaging one more present column, whose `_moy` name is new, extends
      what the row holds by exactly that column. */
  lemma RowRolledStep(s: seq<Row>, i: int, o: Row, listed: seq<string>, col: string, w: int)
    requires 0 <= i < |s| && w >= 1 && Present(s, col)
    requires RowRolled(s, i, o, listed, w)
    ensures RowRolled(s, i, WithStat(o, MoyName(col), RollingValue(s, i, col, w)), listed + [col], w)
  {
    var n := WithStat(o, MoyName(col), RollingValue(s, i, col, w));
    MoyKeysSnoc(s, listed, col);
    MoyValuesStep(s, i, o, listed, col, w);
    OthersKeptStep(s, i, o, listed, col, RollingValue(s, i, col, w));
  }

  lemma MoyValuesStep(s: seq<Row>, i: int, o: Row, listed: seq<string>, col: string, w: int)
    requires 0 <= i < |s| && w >= 1 && Present(s, col)
    requires MoyValues(s, i, o, listed, w)
    ensures MoyValues(s, i, WithStat(o, MoyName(col), RollingValue(s, i, col, w)), listed + [col], w)
  {
    var n := WithStat(o, MoyName(col), RollingValue(s, i, col, w));
    forall c | c in listed + [col] && Present(s, c)
      ensures MoyName(c) in n.stats && n.stats[MoyName(c)] == RollingValue(s, i, c, w)
    {
      if c != col {
        assert c in listed;
        if MoyName(c) == MoyName(col) {
          MoyNameInjective(c, col);
        }
      }
    }
  }

  lemma OthersKeptStep(s: seq<Row>, i: int, o: Row, listed: seq<string>, col: string, v: real)
    requires 0 <= i < |s| && Present(s, col)
    requires OthersKept(s, i, o, listed)
    ensures OthersKept(s, i, WithStat(o, MoyName(col), v), listed + [col])
  {
    MoyKeysSnoc(s, listed, col);
  }

  /** Skipping a column the rows do not all hold changes nothing. */
  lemma RowRolledSkip(s: seq<Row>, i: int, o: Row, listed: seq<string>, col: string, w: int)
    requires 0 <= i < |s| && !Present(s, col)
    requires RowRolled(s, i, o, listed, w)
    ensures RowRolled(s, i, o, listed + [col], w)
  {
    MoyKeysSnoc(s, listed, col);
  }

  /** Two lists naming the same present columns describe the same rows. */
  lemma RowRolledSameListed(s: seq<Row>, i: int, r: Row, a: seq<string>, b: seq<string>, w: int)
    requires 0 <= i < |s|
    requires forall c :: Present(s, c) ==> (c in a <==> c in b)
    requires RowRolled(s, i, r, a, w)
    ensures RowRolled(s, i, r, b, w)
  {
    assert MoyKeys(s, a) == MoyKeys(s, b);
  }

  /** A listed column that is no `_moy` name of a listed column is still the
      original column after some of the listed columns are averaged. */
  lemma ColumnUntouched(s: seq<Row>, out: seq<Row>, done: seq<string>, all: seq<string>, col: string, w: int)
    requires NoMoyClash(all) && col in all && forall c :: c in done ==> c in all
    requires AllRolled(s, out, done, w)
    ensures Present(out, col) <==> Present(s, col)
    ensures Present(s, col) ==> forall j :: 0 <= j < |s| ==> out[j].p1 == s[j].p1 && out[j].stats[col] == s[j].stats[col]
  {
    if col in MoyKeys(s, done) {
      var d :| d in done && Present(s, d) && col == MoyName(d);
      MoyNameIsMoyColumn(d);
    }
    forall j | 0 <= j < |s|
      ensures col in out[j].stats <==> col in s[j].stats
      ensures col in s[j].stats ==> out[j].stats[col] == s[j].stats[col]
      ensures out[j].p1 == s[j].p1
    {
      assert RowRolled(s, j, out[j], done, w);
      assert ContestOf(out[j]) == ContestOf(s[j]);
    }
  }

  /** One step of the column loop keeps every row described by the columns
      done so far. */
  lemma RollColumnsStep(s: seq<Row>, out: seq<Row>, next: seq<Row>, all: seq<string>, k: int, w: int)
    requires w >= 1 && NoMoyClash(all) && 0 <= k < |all|
    requires AllRolled(s, out, all[..k], w)
    requires |next| == |s|
    requires Present(out, all[k]) ==>
      forall i :: 0 <= i < |s| ==> next[i] == WithStat(out[i], MoyName(all[k]), RollingValue(out, i, all[k], w))
    requires !Present(out, all[k]) ==> next == out
    ensures AllRolled(s, next, all[..k + 1], w)
  {
    var col := all[k];
    assert all[..k + 1] == all[..k] + [col];
    ColumnUntouched(s, out, all[..k], all, col, w);
    forall i | 0 <= i < |s|
      ensures RowRolled(s, i, next[i], all[..k] + [col], w)
    {
      if Present(s, col) {
        RollingValueAgree(out, s, i, col, w);
        RowRolledStep(s, i, out[i], all[..k], col, w);
      } else {
        RowRolledSkip(s, i, out[i], all[..k], col, w);
      }
    }
  }

  /** One turn of the column loop: `df[f'{col}_moy'] = ...` when the
      current rows all hold `col`, nothing otherwise. */
  method RollOne(out: seq<Row>, col: string, w: int) returns (next: seq<Row>)
    requires w >= 1
    ensures |next| == |out|
    ensures Present(out, col) ==>
      forall i :: 0 <= i < |out| ==> next[i] == WithStat(out[i], MoyName(col), RollingValue(out, i, col, w))
    ensures !Present(out, col) ==> next == out
  {
    next := out;
    if Present(out, col) {
      next := RollingColumn(out, col, w);
    }
  }

  /** What the column loop keeps whatever the column names: the contests,
      every original column, and a `_moy` column per present column done. */
  ghost predicate Shaped(s: seq<Row>, out: seq<Row>, done: seq<string>) {
    && |out| == |s|
    && (forall i :: 0 <= i < |s| ==> ContestOf(out[i]) == ContestOf(s[i]))
    && (forall i :: 0 <= i < |s| ==> s[i].stats.Keys <= out[i].stats.Keys)
    && (forall i, c :: 0 <= i < |s| && c in done && Present(s, c) ==> MoyName(c) in out[i].stats)
  }

  lemma ShapedStep(s: seq<Row>, out: seq<Row>, next: seq<Row>, done: seq<string>, col: string, w: int)
    requires w >= 1 && Shaped(s, out, done) && |next| == |s|
    requires Present(out, col) ==>
      forall i :: 0 <= i < |s| ==> next[i] == WithStat(out[i], MoyName(col), RollingValue(out, i, col, w))
    requires !Present(out, col) ==> next == out
    ensures Shaped(s, next, done + [col])
  {
    if Present(out, col) {
      forall i | 0 <= i < |s|
        ensures ContestOf(next[i]) == ContestOf(s[i])
        ensures out[i].stats.Keys + {MoyName(col)} == next[i].stats.Keys
      {
        assert next[i] == WithStat(out[i], MoyName(col), RollingValue(out, i, col, w));
      }
    } else {
      assert !Present(s, col);
    }
  }

  /** The column loop after `k` columns. */
  ghost predicate Progress(s: seq<Row>, out: seq<Row>, columns: seq<string>, k: int, w: int)
    requires 0 <= k <= |columns|
  {
    Shaped(s, out, columns[..k]) && (NoMoyClash(columns) ==> AllRolled(s, out, columns[..k], w))
  }

  lemma ProgressStart(s: seq<Row>, columns: seq<string>, w: int)
    ensures Progress(s, s, columns, 0, w)
  {
    NothingRolled(s, w);
    assert columns[..0] == [];
  }

  lemma ProgressStep(s: seq<Row>, out: seq<Row>, next: seq<Row>, columns: seq<string>, k: int, w: int)
    requires w >= 1 && 0 <= k < |columns| && Progress(s, out, columns, k, w)
    requires |next| == |out|
    requires Present(out, columns[k]) ==> forall i :: 0 <= i < |out| ==>
      next[i] == WithStat(out[i], MoyName(columns[k]), RollingValue(out, i, columns[k], w))
    requires !Present(out, columns[k]) ==> next == out
    ensures Progress(s, next, columns, k + 1, w)
  {
    assert columns[..k + 1] == columns[..k] + [columns[k]];
    ShapedStep(s, out, next, columns[..k], columns[k], w);
    if NoMoyClash(columns) {
      RollColumnsStep(s, out, next, columns, k, w);
    }
  }

  lemma ProgressEnd(s: seq<Row>, out: seq<Row>, columns: seq<string>, w: int)
    requires Progress(s, out, columns, |columns|, w)
    ensures Shaped(s, out, columns)
    ensures NoMoyClash(columns) ==> AllRolled(s, out, columns, w)
  {
    assert columns[..|columns|] == columns;
  }

  /** The loop over the listed columns, once the window is known valid:
      each present column gets its `_moy` column, the others are skipped.
      When no listed column is itself a rolling average, every row ends up
      as `RowRolled` describes. */
  method RollColumns(s: seq<Row>, columns: seq<string>, w: int) returns (out: seq<Row>)
    requires w >= 1
    ensures Shaped(s, out, columns)
    ensures NoMoyClash(columns) ==> AllRolled(s, out, columns, w)
  {
    out := s;
    var k := 0;
    ProgressStart(s, columns, w);
    while k < |columns|
      invariant 0 <= k <= |columns|
      invariant Progress(s, out, columns, k, w)
    {
      var next := RollOne(out, columns[k], w);
      ProgressStep(s, out, next, columns, k, w);
      out := next;
      k := k + 1;
    }
    ProgressEnd(s, out, columns, w);
  }

  /** `calculate_rolling_stats(df, columns)` with `rolling_window == w`:
      pandas rejects the window at the first listed column the table holds,
      before any column is written. */
  method CalculateRollingStats(rows: seq<Row>, columns: seq<string>, w: int)
      returns (res: Result<seq<Row>, RollingError>)
    ensures res.Failure? <==> w < 1 && exists c :: c in columns && Present(rows, c)
    ensures res.Failure? ==> res.error == InvalidWindow(w)
    ensures res.Success? ==>
      var s := ByPlayerDate(rows);
      var out := res.value;
      && |out| == |rows|
      && SortedBy(PlayerDateLe, out)
      && (forall i :: 0 <= i < |out| ==> ContestOf(out[i]) == ContestOf(s[i]))
      && (forall i :: 0 <= i < |out| ==> s[i].stats.Keys <= out[i].stats.Keys)
      && (forall i, c :: 0 <= i < |out| && c in columns && Present(rows, c) ==> MoyName(c) in out[i].stats)
    ensures res.Success? && NoMoyClash(columns) ==>
      forall i :: 0 <= i < |res.value| ==> RowRolled(ByPlayerDate(rows), i, res.value[i], columns, w)
  {
    if w < 1 && exists c :: c in columns && Present(rows, c) {
      return Failure(InvalidWindow(w));
    }
    var s := ByPlayerDate(rows);
    forall c | c in columns
      ensures Present(rows, c) <==> Present(s, c)
    {
      PresentPermutation(rows, s, c);
    }
    if w < 1 {
      assert MoyKeys(s, columns) == {};
      return Success(s);
    }
    var out := RollColumns(s, columns, w);
    SortedKept(s, out);
    return Success(out);
  }
}
