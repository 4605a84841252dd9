/** The head-to-head tracker of `create_head_to_head_features`: one pass in
    `tourney_date` order over a map from the alphabetically sorted player
    pair to a per-player win counter. Each row emits the pair's counts BEFORE
    the row, then credits the row's winner. */
module HeadToHead {
  import opened Ordering
  import opened Seqs
  import opened Matches

  const TotalColumn: string := "h2h_total_matches"
  const P1WinsColumn: string := "h2h_p1_wins"
  const P2WinsColumn: string := "h2h_p2_wins"
  const RatioColumn: string := "h2h_p1_win_ratio"

  /** `tuple(sorted([a, b]))`. */
  type PairKey = (string, string)

  function PairKeyOf(a: string, b: string): (k: PairKey)
    ensures StrLe(k.0, k.1)
    ensures (k.0 == a && k.1 == b) || (k.0 == b && k.1 == a)
  {
    StrLeTotal(a, b);
    if StrLe(a, b) then (a, b) else (b, a)
  }

  /** (A, B) and (B, A) share one entry. */
  lemma PairKeySymmetric(a: string, b: string)
    ensures PairKeyOf(a, b) == PairKeyOf(b, a)
  {
    if StrLe(a, b) && StrLe(b, a) {
      StrLeAntisymmetric(a, b);
    }
  }

  type H2HState = map<PairKey, map<string, nat>>

  /** `h2h_wins[key].get(p, 0)`, and 0 for a pair never seen. */
  function Wins(st: H2HState, key: PairKey, p: string): nat {
    if key in st && p in st[key] then st[key][p] else 0
  }

  /** The four values a row emits. */
  datatype H2HRecord = H2HRecord(total: nat, p1Wins: nat, p2Wins: nat, ratio: real)

  /** P1's share of the pair's wins, 0.5 when the pair never met. */
  function Share(w1: nat, w2: nat): (q: real)
    ensures 0.0 <= q <= 1.0
  {
    if w1 + w2 > 0 then w1 as real / (w1 + w2) as real else 0.5
  }

  /** The two players' shares add up to one. */
  lemma ShareComplement(w1: nat, w2: nat)
    ensures Share(w1, w2) + Share(w2, w1) == 1.0
  {
    if w1 + w2 > 0 {
      var t := (w1 + w2) as real;
      assert (w2 + w1) as real == t;
      assert w1 as real / t + w2 as real / t == (w1 as real + w2 as real) / t;
    }
  }

  /** The pre-match read of one row: both players' wins within their pair,
      their sum, and P1's share of it (0.5 when they never met). */
  function H2HRead(st: H2HState, r: Row): (e: H2HRecord)
    ensures e.total == e.p1Wins + e.p2Wins
    ensures 0.0 <= e.ratio <= 1.0
  {
    var key := PairKeyOf(r.p1, r.p2);
    var w1 := Wins(st, key, r.p1);
    var w2 := Wins(st, key, r.p2);
    H2HRecord(w1 + w2, w1, w2, Share(w1, w2))
  }

  /** The update of one row: the pair's entry is created at `{p1: 0, p2: 0}`
      if needed, then the winner's counter goes up by one. Nothing else
      changes. */
  function H2HUpdate(st: H2HState, r: Row): (st': H2HState)
    ensures Wins(st', PairKeyOf(r.p1, r.p2), Winner(r)) == Wins(st, PairKeyOf(r.p1, r.p2), Winner(r)) + 1
    ensures forall k, p :: (k != PairKeyOf(r.p1, r.p2) || p != Winner(r)) ==> Wins(st', k, p) == Wins(st, k, p)
  {
    var key := PairKeyOf(r.p1, r.p2);
    var entry := if key in st then st[key] else map[r.p1 := 0, r.p2 := 0];
    var w := Winner(r);
    st[key := entry[w := (if w in entry then entry[w] else 0) + 1]]
  }

  /** Reference definition: the state once `rows` have been applied in order. */
  function H2HAfter(rows: seq<Row>): H2HState
    decreases |rows|
  {
    if rows == [] then map[] else H2HUpdate(H2HAfter(rows[..|rows| - 1]), rows[|rows| - 1])
  }

  lemma H2HAfterStep(rows: seq<Row>, i: int)
    requires 0 <= i < |rows|
    ensures H2HAfter(rows[..i + 1]) == H2HUpdate(H2HAfter(rows[..i]), rows[i])
  {
    assert rows[..i + 1][..i] == rows[..i];
  }

  /** A row of the pair `key`. */
  function OfPair(key: PairKey): Row -> bool {
    (r: Row) => PairKeyOf(r.p1, r.p2) == key
  }

  /** A row of the pair `key` that `p` won. */
  function WonBy(key: PairKey, p: string): Row -> bool {
    (r: Row) => PairKeyOf(r.p1, r.p2) == key && Winner(r) == p
  }

  /** Rows of the pair `key` that `p` won. */
  function WonMeetings(rows: seq<Row>, key: PairKey, p: string): nat {
    Count(rows, WonBy(key, p))
  }

  /** Rows of the pair `key`. */
  function Meetings(rows: seq<Row>, key: PairKey): nat {
    Count(rows, OfPair(key))
  }

  /** A counter holds exactly the number of earlier meetings of the pair
      that player won. */
  lemma {:induction false} WinsAreWonMeetings(rows: seq<Row>, key: PairKey, p: string)
    ensures Wins(H2HAfter(rows), key, p) == WonMeetings(rows, key, p)
    decreases |rows|
  {
    if rows != [] {
      var prev := rows[..|rows| - 1];
      WinsAreWonMeetings(prev, key, p);
      assert rows == prev + [rows[|rows| - 1]];
      CountSnoc(prev, rows[|rows| - 1], WonBy(key, p));
    }
  }

  /** For two distinct players the pair's total is the number of earlier
      rows of that pair. */
  lemma {:induction false} TotalIsMeetings(rows: seq<Row>, a: string, b: string)
    requires a != b
    ensures Wins(H2HAfter(rows), PairKeyOf(a, b), a) + Wins(H2HAfter(rows), PairKeyOf(a, b), b)
      == Meetings(rows, PairKeyOf(a, b))
    decreases |rows|
  {
    if rows != [] {
      var prev := rows[..|rows| - 1];
      var last := rows[|rows| - 1];
      TotalIsMeetings(prev, a, b);
      assert rows == prev + [last];
      CountSnoc(prev, last, OfPair(PairKeyOf(a, b)));
      PairTotalStep(H2HAfter(prev), last, a, b);
    }
  }

  /** One row adds one to its own pair's total and nothing to any other. */
  lemma PairTotalStep(st: H2HState, r: Row, a: string, b: string)
    requires a != b
    ensures var k := PairKeyOf(a, b);
      Wins(H2HUpdate(st, r), k, a) + Wins(H2HUpdate(st, r), k, b)
      == Wins(st, k, a) + Wins(st, k, b) + (if OfPair(k)(r) then 1 else 0)
  {
    if OfPair(PairKeyOf(a, b))(r) {
      assert Winner(r) == a || Winner(r) == b;
    }
  }

  /** H2H symmetry: the ratio a row and its mirror read from one state add
      up to one, and the two win counts trade places. */
  lemma MirrorRatiosComplement(st: H2HState, r: Row, m: Row)
    requires r.p1 != r.p2 && m.p1 == r.p2 && m.p2 == r.p1
    ensures H2HRead(st, m).p1Wins == H2HRead(st, r).p2Wins
    ensures H2HRead(st, m).p2Wins == H2HRead(st, r).p1Wins
    ensures H2HRead(st, r).ratio + H2HRead(st, m).ratio == 1.0
  {
    PairKeySymmetric(r.p1, r.p2);
    var key := PairKeyOf(r.p1, r.p2);
    ShareComplement(Wins(st, key, r.p1), Wins(st, key, r.p2));
  }

  /** A contest and its mirror both credit the real winner: every contest
      counts twice in the pair's counters. */
  lemma MirroredMeetingCountsTwice(st: H2HState, r: Row, m: Row)
    requires r.result == 1 && IsMirrorOf(m, r)
    ensures var k := PairKeyOf(r.p1, r.p2);
      Wins(H2HUpdate(H2HUpdate(st, r), m), k, r.p1) == Wins(st, k, r.p1) + 2
  {
    PairKeySymmetric(r.p1, r.p2);
  }

  /** The record row `i` emits: the read of the state after the rows before
      it. */
  function PreMatch(rows: seq<Row>, i: int): H2HRecord
    requires 0 <= i < |rows|
  {
    H2HRead(H2HAfter(rows[..i]), rows[i])
  }

  /** First meeting of two distinct players: no history, ratio 0.5. */
  lemma FirstMeetingIsNeutral(rows: seq<Row>, i: int)
    requires 0 <= i < |rows| && rows[i].p1 != rows[i].p2
    requires forall j :: 0 <= j < i ==> PairKeyOf(rows[j].p1, rows[j].p2) != PairKeyOf(rows[i].p1, rows[i].p2)
    ensures PreMatch(rows, i).total == 0 && PreMatch(rows, i).ratio == 0.5
  {
    var key := PairKeyOf(rows[i].p1, rows[i].p2);
    TotalIsMeetings(rows[..i], rows[i].p1, rows[i].p2);
    CountNone(rows[..i], OfPair(key));
  }

  /** The loop of `create_head_to_head_features` over rows already in
      traversal order. */
  method H2HPass(rows: seq<Row>) returns (records: seq<H2HRecord>, st: H2HState)
    ensures |records| == |rows|
    ensures forall i :: 0 <= i < |rows| ==> records[i] == PreMatch(rows, i)
    ensures st == H2HAfter(rows)
  {
    st := map[];
    records := [];
    var i := 0;
    while i < |rows|
      invariant 0 <= i <= |rows|
      invariant |records| == i
      invariant st == H2HAfter(rows[..i])
      invariant forall j :: 0 <= j < i ==> records[j] == PreMatch(rows, j)
    {
      var rec := H2HRead(st, rows[i]);
      RecordsStep(rows, records, rec);
      records := records + [rec];
      H2HAfterStep(rows, i);
      st := H2HUpdate(st, rows[i]);
      i := i + 1;
    }
    assert rows[..|rows|] == rows;
  }

  /** Appending the read of the next row extends the records of the rows
      before it. */
  lemma RecordsStep(rows: seq<Row>, records: seq<H2HRecord>, rec: H2HRecord)
    requires |records| < |rows|
    requires forall j :: 0 <= j < |records| ==> records[j] == PreMatch(rows, j)
    requires rec == PreMatch(rows, |records|)
    ensures forall j :: 0 <= j < |records| + 1 ==> (records + [rec])[j] == PreMatch(rows, j)
  {
  }

  /** The four columns written into a row. */
  function WithH2H(r: Row, e: H2HRecord): (r': Row)
    ensures ContestOf(r') == ContestOf(r)
    ensures r'.stats.Keys == r.stats.Keys + {TotalColumn, P1WinsColumn, P2WinsColumn, RatioColumn}
    ensures r'.stats[TotalColumn] == e.total as real
    ensures r'.stats[P1WinsColumn] == e.p1Wins as real
    ensures r'.stats[P2WinsColumn] == e.p2Wins as real
    ensures r'.stats[RatioColumn] == e.ratio
    ensures forall k :: k in r.stats && k !in {TotalColumn, P1WinsColumn, P2WinsColumn, RatioColumn} ==>
      r'.stats[k] == r.stats[k]
  {
    WithStat(WithStat(WithStat(WithStat(r, TotalColumn, e.total as real),
      P1WinsColumn, e.p1Wins as real), P2WinsColumn, e.p2Wins as real), RatioColumn, e.ratio)
  }

  /** Row `i` of the date-sorted table `s` carries the four columns read
      from the matches before it: the total is the sum of the two win counts
      and the ratio lies in [0, 1]; the contest and every other cell stay. */
  predicate EmitsH2H(s: seq<Row>, i: int, r': Row)
    requires 0 <= i < |s|
  {
    var e := PreMatch(s, i);
    && r' == WithH2H(s[i], e)
    && ContestOf(r') == ContestOf(s[i])
    && r'.stats.Keys == s[i].stats.Keys + {TotalColumn, P1WinsColumn, P2WinsColumn, RatioColumn}
    && r'.stats[TotalColumn] == r'.stats[P1WinsColumn] + r'.stats[P2WinsColumn]
    && r'.stats[P1WinsColumn] == e.p1Wins as real
    && r'.stats[P2WinsColumn] == e.p2Wins as real
    && r'.stats[RatioColumn] == e.ratio
    && 0.0 <= r'.stats[RatioColumn] <= 1.0
  }

  /** The row the pass writes for position `i` has all those properties. */
  lemma WithH2HEmits(s: seq<Row>, i: int)
    requires 0 <= i < |s|
    ensures EmitsH2H(s, i, WithH2H(s[i], PreMatch(s, i)))
  {
    var e := PreMatch(s, i);
    assert e.total == e.p1Wins + e.p2Wins && 0.0 <= e.ratio <= 1.0;
  }

  /** `create_head_to_head_features`: sort by date, run the pass, add the
      four columns. */
  method CreateHeadToHeadFeatures(rows: seq<Row>) returns (out: seq<Row>)
    ensures |out| == |rows|
    ensures forall i, j :: 0 <= i < j < |out| ==> out[i].date <= out[j].date
    ensures forall i :: 0 <= i < |out| ==> EmitsH2H(ByDate(rows), i, out[i])
  {
    var sorted := ByDate(rows);
    var records, _ := H2HPass(sorted);
    out := seq(|sorted|, i requires 0 <= i < |sorted| => WithH2H(sorted[i], records[i]));
    forall i | 0 <= i < |out|
      ensures EmitsH2H(sorted, i, out[i])
    {
      WithH2HEmits(sorted, i);
    }
    DatesKept(sorted, out);
  }

  /** Rows that keep their contests position by position keep the date
      order. */
  lemma DatesKept(s: seq<Row>, out: seq<Row>)
    requires |out| == |s|
    requires forall i, j :: 0 <= i < j < |s| ==> s[i].date <= s[j].date
    requires forall i :: 0 <= i < |s| ==> ContestOf(out[i]) == ContestOf(s[i])
    ensures forall i, j :: 0 <= i < j < |out| ==> out[i].date <= out[j].date
  {
    forall i, j | 0 <= i < j < |out|
      ensures out[i].date <= out[j].date
    {
      assert ContestOf(out[i]) == ContestOf(s[i]) && ContestOf(out[j]) == ContestOf(s[j]);
    }
  }
}
