/** The preprocessing steps of `ATPDataPreprocessor`, each a function from a
    well-formed table to a table or, where pandas would raise `KeyError` on
    a missing column, to that error. `Preprocess` chains them in the
    source's order. Dates are day numbers already: the conversion step
    `convert_date_column` is not modelled. */
module Preprocessor {
  import opened Wrappers
  import opened Ordering
  import opened Seqs
  import opened Tables
  import opened Mirror

  const TourneyName: string := "tourney_name"
  const LocationColumn: string := "Location"
  const DateColumn: string := "tourney_date"
  const ResultColumn: string := "result"
  const P1Column: string := "P1"
  const P2Column: string := "P2"
  const DavisCupPrefix: string := "Davis Cup"

  /** `tourney_name.str.startswith('Davis Cup', na=False)`: a missing or
      non-text name is no Davis Cup name. */
  predicate IsDavisCup(c: Cell) {
    c.Text? && StartsWith(c.s, DavisCupPrefix)
  }

  predicate NotDavisCup(r: Record) {
    !(TourneyName in r && IsDavisCup(r[TourneyName]))
  }

  /** `clean_davis_cup`. */
  function CleanDavisCup(t: Table): (res: Result<Table, PipelineError>)
    requires WellFormed(t)
    ensures res.Failure? <==> TourneyName !in t.columns
    ensures res.Failure? ==> res.error == MissingColumns([TourneyName])
    ensures res.Success? ==>
      && WellFormed(res.value)
      && res.value.columns == t.columns
      && (forall r :: r in res.value.rows <==> r in t.rows && NotDavisCup(r))
      && (forall r :: multiset(res.value.rows)[r] == if NotDavisCup(r) then multiset(t.rows)[r] else 0)
  {
    if TourneyName !in t.columns then Failure(MissingColumns([TourneyName]))
    else Success(FilterRows(t, NotDavisCup))
  }

  /** `add_location_column`: `Location` is the mapped city when the name is
      a key of the mapping, and the name itself otherwise. */
  function AddLocation(t: Table, mapping: map<string, string>): (res: Result<Table, PipelineError>)
    requires WellFormed(t)
    ensures res.Failure? <==> TourneyName !in t.columns
    ensures res.Failure? ==> res.error == MissingColumns([TourneyName])
    ensures res.Success? ==>
      var out := res.value;
      && WellFormed(out)
      && out.columns == WithColumn(t.columns, LocationColumn)
      && |out.rows| == |t.rows|
      && forall i :: 0 <= i < |t.rows| ==>
        var name := t.rows[i][TourneyName];
        && out.rows[i].Keys == t.rows[i].Keys + {LocationColumn}
        && (name.Text? && name.s in mapping ==> out.rows[i][LocationColumn] == Text(mapping[name.s]))
        && (!(name.Text? && name.s in mapping) ==> out.rows[i][LocationColumn] == name)
        && forall k :: k in t.rows[i] && k != LocationColumn ==> out.rows[i][k] == t.rows[i][k]
  {
    if TourneyName !in t.columns then Failure(MissingColumns([TourneyName]))
    else
      Success(SetColumn(t, LocationColumn, (r: Record) =>
        if TourneyName in r && r[TourneyName].Text? && r[TourneyName].s in mapping
        then Text(mapping[r[TourneyName].s])
        else if TourneyName in r then r[TourneyName] else Missing))
  }

  /** The columns after writing `c`: appended when new. */
  function WithColumn(cols: seq<string>, c: string): seq<string> {
    if c in cols then cols else cols + [c]
  }

  predicate AllowedTournament(allowed: seq<string>, r: Record) {
    TourneyName in r && r[TourneyName].Text? && r[TourneyName].s in allowed
  }

  /** `filter_tournaments`: `tourney_name.isin(allowed)`. */
  function FilterTournaments(t: Table, allowed: seq<string>): (res: Result<Table, PipelineError>)
    requires WellFormed(t)
    ensures res.Failure? <==> TourneyName !in t.columns
    ensures res.Failure? ==> res.error == MissingColumns([TourneyName])
    ensures res.Success? ==>
      && WellFormed(res.value)
      && res.value.columns == t.columns
      && (forall r :: r in res.value.rows <==> r in t.rows && AllowedTournament(allowed, r))
      && (forall r :: multiset(res.value.rows)[r] ==
            if AllowedTournament(allowed, r) then multiset(t.rows)[r] else 0)
  {
    if TourneyName !in t.columns then Failure(MissingColumns([TourneyName]))
    else Success(FilterRows(t, (r: Record) => AllowedTournament(allowed, r)))
  }

  /** A column the drop list does not name. */
  function Kept(toDrop: seq<string>): string -> bool {
    (c: string) => c !in toDrop
  }

  function DropFrom(toDrop: seq<string>): Record -> Record {
    (r: Record) => DropRecord(r, toDrop)
  }

  /** One row without the dropped columns. */
  function DropRecord(r: Record, toDrop: seq<string>): (m: Record)
    ensures forall k :: k in m <==> k in r && k !in toDrop
    ensures forall k :: k in m ==> m[k] == r[k]
  {
    map k | k in r && k !in toDrop :: r[k]
  }

  /** `drop_unnecessary_columns`: the listed columns the table holds go,
      everything else stays as it was. */
  function DropColumns(t: Table, toDrop: seq<string>): (out: Table)
    requires WellFormed(t)
    ensures WellFormed(out)
    ensures forall c :: c in out.columns <==> c in t.columns && c !in toDrop
    ensures |out.rows| == |t.rows|
    ensures forall i :: 0 <= i < |t.rows| ==>
      && (forall k :: k in out.rows[i] <==> k in t.rows[i] && k !in toDrop)
      && (forall k :: k in out.rows[i] ==> out.rows[i][k] == t.rows[i][k])
  {
    var cols := Filter(t.columns, Kept(toDrop));
    FilterNoDuplicates(t.columns, Kept(toDrop));
    var rows := MapSeq(t.rows, DropFrom(toDrop));
    assert forall i :: 0 <= i < |rows| ==> rows[i].Keys == ColumnSet(cols);
    Table(cols, rows)
  }

  /** Dropping is idempotent. */
  lemma DropColumnsIdempotent(t: Table, toDrop: seq<string>)
    requires WellFormed(t)
    ensures DropColumns(DropColumns(t, toDrop), toDrop) == DropColumns(t, toDrop)
  {
    var once := DropColumns(t, toDrop);
    var twice := DropColumns(once, toDrop);
    FilterAll(once.columns, Kept(toDrop));
    assert twice.columns == once.columns;
    forall i | 0 <= i < |once.rows|
      ensures twice.rows[i] == once.rows[i]
    {
      DropRecordTwice(once.rows[i], toDrop);
    }
    assert twice.rows == once.rows;
  }

  /** A record without the dropped columns has none left to drop. */
  lemma DropRecordTwice(r: Record, toDrop: seq<string>)
    requires forall k :: k in r ==> k !in toDrop
    ensures DropRecord(r, toDrop) == r
  {
    RecordExtensionality(DropRecord(r, toDrop), r);
  }

  /** The name a column gets: `ren[c]` for the listed names, `c` itself
      otherwise. */
  function NewName(ren: map<string, string>, c: string): string {
    if c in ren then ren[c] else c
  }

  /** The renaming sends no two columns to one name. */
  predicate RenameInjective(cols: seq<string>, ren: map<string, string>) {
    forall i, j :: 0 <= i < j < |cols| ==> NewName(ren, cols[i]) != NewName(ren, cols[j])
  }

  /** The new column list, in the old order. */
  function RenamedColumns(cols: seq<string>, ren: map<string, string>): (rc: seq<string>)
    ensures |rc| == |cols|
    ensures forall j :: 0 <= j < |cols| ==> rc[j] == NewName(ren, cols[j])
  {
    seq(|cols|, j requires 0 <= j < |cols| => NewName(ren, cols[j]))
  }

  /** One row under the new names. */
  function RenameRecord(r: Record, cols: seq<string>, ren: map<string, string>): (m: Record)
    requires forall j :: 0 <= j < |cols| ==> cols[j] in r
    requires RenameInjective(cols, ren)
    ensures forall k :: k in m <==> k in RenamedColumns(cols, ren)
    ensures forall j :: 0 <= j < |cols| ==> m[NewName(ren, cols[j])] == r[cols[j]]
  {
    var rc := RenamedColumns(cols, ren);
    var m := map j | 0 <= j < |cols| :: rc[j] := r[cols[j]];
    assert forall k :: k in m ==> k in rc;
    assert forall j :: 0 <= j < |rc| ==> rc[j] in m;
    m
  }

  /** `df.rename(columns=...)`: each column keeps its place and its values
      under its new name. */
  function RenameColumns(t: Table, ren: map<string, string>): (out: Table)
    requires WellFormed(t) && RenameInjective(t.columns, ren)
    ensures WellFormed(out)
    ensures |out.columns| == |t.columns|
    ensures forall j :: 0 <= j < |t.columns| ==> out.columns[j] == NewName(ren, t.columns[j])
    ensures |out.rows| == |t.rows|
    ensures forall i, j :: 0 <= i < |t.rows| && 0 <= j < |t.columns| ==>
      out.rows[i][NewName(ren, t.columns[j])] == t.rows[i][t.columns[j]]
  {
    var cols := RenamedColumns(t.columns, ren);
    var rows := seq(|t.rows|, i requires 0 <= i < |t.rows| => RenameRecord(t.rows[i], t.columns, ren));
    assert forall i :: 0 <= i < |rows| ==> rows[i].Keys == ColumnSet(cols);
    Table(cols, rows)
  }

  /** Renaming with a map that undoes the first on the table's columns gives
      the table back. */
  lemma RenameRoundTrip(t: Table, ren: map<string, string>, inv: map<string, string>)
    requires WellFormed(t) && RenameInjective(t.columns, ren)
    requires forall j :: 0 <= j < |t.columns| ==> NewName(inv, NewName(ren, t.columns[j])) == t.columns[j]
    ensures RenameInjective(RenameColumns(t, ren).columns, inv)
    ensures RenameColumns(RenameColumns(t, ren), inv) == t
  {
    var once := RenameColumns(t, ren);
    assert RenameInjective(once.columns, inv);
    var back := RenameColumns(once, inv);
    assert back.columns == t.columns;
    forall i | 0 <= i < |t.rows|
      ensures back.rows[i] == t.rows[i]
    {
      RenameRowBack(t, ren, inv, i);
    }
    assert back.rows == t.rows;
  }

  lemma RenameRowBack(t: Table, ren: map<string, string>, inv: map<string, string>, i: int)
    requires WellFormed(t) && RenameInjective(t.columns, ren)
    requires forall j :: 0 <= j < |t.columns| ==> NewName(inv, NewName(ren, t.columns[j])) == t.columns[j]
    requires RenameInjective(RenameColumns(t, ren).columns, inv)
    requires 0 <= i < |t.rows|
    ensures RenameColumns(RenameColumns(t, ren), inv).rows[i] == t.rows[i]
  {
    var once := RenameColumns(t, ren);
    RenameColumnsAt(t, ren, i);
    RenameColumnsAt(once, inv, i);
    assert forall k :: k in t.rows[i] <==> k in t.columns;
    RenameRecordBack(t.rows[i], t.columns, ren, inv);
  }

  /** Row `i` of the renamed table is row `i` renamed. */
  lemma RenameColumnsAt(t: Table, ren: map<string, string>, i: int)
    requires WellFormed(t) && RenameInjective(t.columns, ren)
    requires 0 <= i < |t.rows|
    ensures RenameColumns(t, ren).columns == RenamedColumns(t.columns, ren)
    ensures RenameColumns(t, ren).rows[i] == RenameRecord(t.rows[i], t.columns, ren)
  {
  }

  /** One row renamed there and back. */
  lemma RenameRecordBack(r: Record, cols: seq<string>, ren: map<string, string>, inv: map<string, string>)
    requires forall k :: k in r <==> k in cols
    requires RenameInjective(cols, ren)
    requires forall j :: 0 <= j < |cols| ==> NewName(inv, NewName(ren, cols[j])) == cols[j]
    requires RenameInjective(RenamedColumns(cols, ren), inv)
    ensures forall j :: 0 <= j < |cols| ==> RenamedColumns(cols, ren)[j] in RenameRecord(r, cols, ren)
    ensures RenameRecord(RenameRecord(r, cols, ren), RenamedColumns(cols, ren), inv) == r
  {
    BackAgrees(r, cols, ren, inv);
    RecordExtensionality(RenameRecord(RenameRecord(r, cols, ren), RenamedColumns(cols, ren), inv), r);
  }

  lemma BackAgrees(r: Record, cols: seq<string>, ren: map<string, string>, inv: map<string, string>)
    requires forall k :: k in r <==> k in cols
    requires RenameInjective(cols, ren)
    requires forall j :: 0 <= j < |cols| ==> NewName(inv, NewName(ren, cols[j])) == cols[j]
    requires RenameInjective(RenamedColumns(cols, ren), inv)
    ensures forall j :: 0 <= j < |cols| ==> RenamedColumns(cols, ren)[j] in RenameRecord(r, cols, ren)
    ensures var back := RenameRecord(RenameRecord(r, cols, ren), RenamedColumns(cols, ren), inv);
      && (forall k :: k in back ==> k in r)
      && (forall k :: k in r ==> k in back && back[k] == r[k])
  {
    var m := RenameRecord(r, cols, ren);
    var rc := RenamedColumns(cols, ren);
    RenamedCellsPresent(r, cols, ren);
    BackHasNoOtherName(r, cols, ren, inv);
    forall k | k in r
      ensures k in RenameRecord(m, rc, inv) && RenameRecord(m, rc, inv)[k] == r[k]
    {
      var j :| 0 <= j < |cols| && cols[j] == k;
      RenameRecordCell(m, rc, inv, j);
    }
  }

  /** Every renamed column holds the cell of its source. */
  lemma RenamedCellsPresent(r: Record, cols: seq<string>, ren: map<string, string>)
    requires forall j :: 0 <= j < |cols| ==> cols[j] in r
    requires RenameInjective(cols, ren)
    ensures forall j :: 0 <= j < |cols| ==>
      RenamedColumns(cols, ren)[j] in RenameRecord(r, cols, ren)
      && RenameRecord(r, cols, ren)[RenamedColumns(cols, ren)[j]] == r[cols[j]]
  {
    forall j | 0 <= j < |cols|
      ensures RenamedColumns(cols, ren)[j] in RenameRecord(r, cols, ren)
      ensures RenameRecord(r, cols, ren)[RenamedColumns(cols, ren)[j]] == r[cols[j]]
    {
      RenameRecordCell(r, cols, ren, j);
    }
  }

  /** Renamed there and back, a record holds only its original names. */
  lemma BackHasNoOtherName(r: Record, cols: seq<string>, ren: map<string, string>, inv: map<string, string>)
    requires forall k :: k in r <==> k in cols
    requires RenameInjective(cols, ren)
    requires forall j :: 0 <= j < |cols| ==> NewName(inv, NewName(ren, cols[j])) == cols[j]
    requires RenameInjective(RenamedColumns(cols, ren), inv)
    requires forall j :: 0 <= j < |cols| ==> RenamedColumns(cols, ren)[j] in RenameRecord(r, cols, ren)
    ensures forall k :: k in RenameRecord(RenameRecord(r, cols, ren), RenamedColumns(cols, ren), inv) ==> k in r
  {
    var m := RenameRecord(r, cols, ren);
    var rc := RenamedColumns(cols, ren);
    forall k | k in RenameRecord(m, rc, inv)
      ensures k in r
    {
      RenameRecordSource(m, rc, inv, k);
      var j :| 0 <= j < |rc| && NewName(inv, rc[j]) == k;
    }
  }

  /** The fixed renaming of `rename_player_columns`: winner columns become
      P1 columns, loser columns P2 columns. */
  const PlayerRenames: map<string, string> := map[
    "winner_id" := "P1_id", "winner_name" := "P1", "winner_hand" := "P1_hand",
    "winner_ht" := "P1_ht", "winner_ioc" := "P1_ioc", "winner_age" := "P1_age",
    "w_ace" := "P1_ace", "w_df" := "P1_df", "w_svpt" := "P1_svpt", "w_1stIn" := "P1_1stIn",
    "w_1stWon" := "P1_1stWon", "w_2ndWon" := "P1_2ndWon", "w_SvGms" := "P1_SvGms",
    "w_bpSaved" := "P1_bpSaved", "w_bpFaced" := "P1_bpFaced",
    "winner_rank" := "P1_rank", "winner_rank_points" := "P1_rank_pts",
    "loser_id" := "P2_id", "loser_name" := "P2", "loser_hand" := "P2_hand",
    "loser_ht" := "P2_ht", "loser_ioc" := "P2_ioc", "loser_age" := "P2_age",
    "l_ace" := "P2_ace", "l_df" := "P2_df", "l_svpt" := "P2_svpt", "l_1stIn" := "P2_1stIn",
    "l_1stWon" := "P2_1stWon", "l_2ndWon" := "P2_2ndWon", "l_SvGms" := "P2_SvGms",
    "l_bpSaved" := "P2_bpSaved", "l_bpFaced" := "P2_bpFaced",
    "loser_rank" := "P2_rank", "loser_rank_points" := "P2_rank_pts"]

  /** `rename_player_columns`. */
  function RenamePlayerColumns(t: Table): (out: Table)
    requires WellFormed(t) && RenameInjective(t.columns, PlayerRenames)
    ensures WellFormed(out)
    ensures |out.columns| == |t.columns| && |out.rows| == |t.rows|
    ensures forall j :: 0 <= j < |t.columns| ==> out.columns[j] == NewName(PlayerRenames, t.columns[j])
    ensures forall i, j :: 0 <= i < |t.rows| && 0 <= j < |t.columns| ==>
      out.rows[i][NewName(PlayerRenames, t.columns[j])] == t.rows[i][t.columns[j]]
    ensures forall j :: 0 <= j < |t.columns| && t.columns[j] !in PlayerRenames ==> out.columns[j] == t.columns[j]
  {
    RenameColumns(t, PlayerRenames)
  }

  /** The renaming sends the two name columns to `P1` and `P2`. */
  lemma NameRenames()
    ensures NewName(PlayerRenames, "winner_name") == P1Column
    ensures NewName(PlayerRenames, "loser_name") == P2Column
  {
  }

  /** The column `from` becomes `to` with the cells it held. */
  lemma RenamedColumnCells(t: Table, from: string, to: string)
    requires WellFormed(t) && RenameInjective(t.columns, PlayerRenames)
    requires NewName(PlayerRenames, from) == to && from in t.columns
    ensures to in RenamePlayerColumns(t).columns
    ensures forall i :: 0 <= i < |t.rows| ==> RenamePlayerColumns(t).rows[i][to] == t.rows[i][from]
  {
    var j :| 0 <= j < |t.columns| && t.columns[j] == from;
    assert RenamePlayerColumns(t).columns[j] == to;
  }

  /** The two name columns become `P1` and `P2`, each with the names it
      held. */
  lemma PlayerNamesBecomeP1P2(t: Table)
    requires WellFormed(t) && RenameInjective(t.columns, PlayerRenames)
    ensures "winner_name" in t.columns ==>
      && P1Column in RenamePlayerColumns(t).columns
      && forall i :: 0 <= i < |t.rows| ==> RenamePlayerColumns(t).rows[i][P1Column] == t.rows[i]["winner_name"]
    ensures "loser_name" in t.columns ==>
      && P2Column in RenamePlayerColumns(t).columns
      && forall i :: 0 <= i < |t.rows| ==> RenamePlayerColumns(t).rows[i][P2Column] == t.rows[i]["loser_name"]
  {
    NameRenames();
    if "winner_name" in t.columns {
      RenamedColumnCells(t, "winner_name", P1Column);
    }
    if "loser_name" in t.columns {
      RenamedColumnCells(t, "loser_name", P2Column);
    }
  }

  /** `create_result_column`: every row says P1 won. */
  function CreateResultColumn(t: Table): (out: Table)
    requires WellFormed(t)
    ensures WellFormed(out) && ResultColumn in out.columns
    ensures |out.rows| == |t.rows|
    ensures forall i :: 0 <= i < |t.rows| ==>
      && out.rows[i][ResultColumn] == Num(1.0)
      && out.rows[i].Keys == t.rows[i].Keys + {ResultColumn}
      && forall k :: k in t.rows[i] && k != ResultColumn ==> out.rows[i][k] == t.rows[i][k]
  {
    SetColumn(t, ResultColumn, (r: Record) => Num(1.0))
  }

  const CriticalColumns: seq<string> := [P1Column, P2Column, ResultColumn]

  predicate HasCritical(r: Record) {
    && P1Column in r && r[P1Column] != Missing
    && P2Column in r && r[P2Column] != Missing
    && ResultColumn in r && r[ResultColumn] != Missing
  }

  /** `handle_missing_values`: `dropna(subset=['P1', 'P2', 'result'])`; the
      subset's absent columns raise. */
  function HandleMissingValues(t: Table): (res: Result<Table, PipelineError>)
    requires WellFormed(t)
    ensures res.Failure? <==> exists c :: c in CriticalColumns && c !in t.columns
    ensures res.Failure? ==> res.error == MissingColumns(Filter(CriticalColumns, (c: string) => c !in t.columns))
    ensures res.Success? ==>
      && WellFormed(res.value)
      && res.value.columns == t.columns
      && (forall r :: r in res.value.rows <==> r in t.rows && HasCritical(r))
      && (forall r :: multiset(res.value.rows)[r] == if HasCritical(r) then multiset(t.rows)[r] else 0)
  {
    var absent := Filter(CriticalColumns, (c: string) => c !in t.columns);
    if absent != [] then Failure(MissingColumns(absent))
    else Success(FilterRows(t, HasCritical))
  }

  /** Sort key `tourney_date`: numbers in order, missing dates last. */
  function DateCell(r: Record): Cell {
    if DateColumn in r then r[DateColumn] else Missing
  }

  predicate DateCellLe(a: Record, b: Record) {
    var x := DateCell(a);
    var y := DateCell(b);
    if x.Num? then (y.Num? ==> x.x <= y.x) else !y.Num?
  }

  lemma DateCellLeIsTotalPreorder()
    ensures TotalPreorder(DateCellLe)
  {
  }

  /** An original row in the concatenation: when it lacks `result` the
      mirrors' column is missing for it. */
  function Padded(r: Record): Record {
    if ResultColumn in r then r else r[ResultColumn := Missing]
  }

  /** The mirror of one row. */
  function MirrorRow(r: Record, cols: seq<string>): (m: Record)
    requires forall c :: c in cols ==> c in r
    ensures m.Keys == r.Keys + {ResultColumn}
    ensures m[ResultColumn] == Num(-1.0)
  {
    var cs := P1Columns(cols);
    SwapPartners(r, cs)[ResultColumn := Num(-1.0)]
  }

  /** The mirrors of all rows, in row order (`df_reversed`). */
  function Mirrors(t: Table): (ms: seq<Record>)
    requires WellFormed(t)
    ensures |ms| == |t.rows|
    ensures forall i :: 0 <= i < |t.rows| ==> ms[i] == MirrorRow(t.rows[i], t.columns)
  {
    seq(|t.rows|, i requires 0 <= i < |t.rows| => MirrorRow(t.rows[i], t.columns))
  }

  /** The columns after augmentation: `result` is added when absent. */
  function AugmentedColumns(t: Table): (cols: seq<string>)
    requires WellFormed(t)
    ensures NoDuplicates(cols)
    ensures ColumnSet(cols) == ColumnSet(t.columns) + {ResultColumn}
  {
    var cols := if ResultColumn in t.columns then t.columns else t.columns + [ResultColumn];
    assert ColumnSet(cols) == ColumnSet(t.columns) + {ResultColumn};
    cols
  }

  /** Originals and mirrors all hold exactly the augmented columns. */
  lemma ConcatenationKeys(t: Table)
    requires WellFormed(t)
    ensures var all := MapSeq(t.rows, Padded) + Mirrors(t);
      forall i :: 0 <= i < |all| ==> all[i].Keys == ColumnSet(AugmentedColumns(t))
  {
    var originals := MapSeq(t.rows, Padded);
    var mirrors := Mirrors(t);
    var all := originals + mirrors;
    forall i | 0 <= i < |all|
      ensures all[i].Keys == ColumnSet(AugmentedColumns(t))
    {
      if i < |originals| {
        assert all[i] == Padded(t.rows[i]);
      } else {
        assert all[i] == MirrorRow(t.rows[i - |originals|], t.columns);
      }
    }
  }

  /** Rows that all hold the same keys still do after a permutation. */
  lemma KeysOfPermutation(a: seq<Record>, b: seq<Record>, ks: set<string>)
    requires multiset(a) == multiset(b)
    requires forall i :: 0 <= i < |a| ==> a[i].Keys == ks
    ensures forall i :: 0 <= i < |b| ==> b[i].Keys == ks
  {
    forall i | 0 <= i < |b|
      ensures b[i].Keys == ks
    {
      assert b[i] in multiset(a);
      var j :| 0 <= j < |a| && a[j] == b[i];
    }
  }

  /** With `result` already present, padding changes nothing. */
  lemma PaddingKeepsRows(t: Table)
    requires WellFormed(t) && ResultColumn in t.columns
    ensures MapSeq(t.rows, Padded) == t.rows
  {
    var originals := MapSeq(t.rows, Padded);
    forall i | 0 <= i < |t.rows|
      ensures originals[i] == t.rows[i]
    {
      assert ResultColumn in t.rows[i];
    }
  }

  /** `augment_with_reversed_matches`: the originals, then their mirrors,
      sorted by date. */
  function Augment(t: Table): (res: Result<Table, PipelineError>)
    requires WellFormed(t)
    ensures res.Failure? <==> DateColumn !in t.columns
    ensures res.Failure? ==> res.error == MissingColumns([DateColumn])
    ensures res.Success? ==>
      var out := res.value;
      var originals := MapSeq(t.rows, Padded);
      var mirrors := Mirrors(t);
      && WellFormed(out)
      && ColumnSet(out.columns) == ColumnSet(t.columns) + {ResultColumn}
      && |out.rows| == 2 * |t.rows|
      && SortedBy(DateCellLe, out.rows)
      && multiset(out.rows) == multiset(originals) + multiset(mirrors)
      && (ResultColumn in t.columns ==> originals == t.rows)
      && (forall i :: 0 <= i < |t.rows| ==> mirrors[i][ResultColumn] == Num(-1.0))
  {
    if DateColumn !in t.columns then Failure(MissingColumns([DateColumn]))
    else
      var cols := AugmentedColumns(t);
      var all := MapSeq(t.rows, Padded) + Mirrors(t);
      ConcatenationKeys(t);
      DateCellLeIsTotalPreorder();
      var rows := SortBy(all, DateCellLe);
      KeysOfPermutation(all, rows, ColumnSet(cols));
      if ResultColumn in t.columns then PaddingKeepsRows(t); Success(Table(cols, rows))
      else Success(Table(cols, rows))
  }

  lemma ResultIsNoPlayerColumn()
    ensures !StartsWith(ResultColumn, P1Prefix) && !StartsWith(ResultColumn, P2Prefix)
  {
    assert ResultColumn[..2] == "re";
  }

  /** A column that is neither a `P1` nor a `P2` column, nor `result`,
      keeps its value in the mirror. */
  lemma MirrorKeepsOtherColumns(r: Record, cols: seq<string>, k: string)
    requires forall c :: c in cols ==> c in r
    requires k in r && k != ResultColumn
    requires !StartsWith(k, P1Prefix) && !StartsWith(k, P2Prefix)
    ensures MirrorRow(r, cols)[k] == r[k]
  {
    var cs := P1Columns(cols);
    forall i | 0 <= i < |cs|
      ensures (cs[i] != k || Partner(cs[i]) !in r) && Partner(cs[i]) != k
    {
      assert cs[i] in cs;
      PartnerOfP1(cs[i]);
    }
    UntouchedOrUnpaired(r, cs, k);
  }

  /** The mirror's `P1` and `P2` are the row's `P2` and `P1`. */
  lemma MirrorSwapsPlayers(r: Record, cols: seq<string>)
    requires forall c :: c in cols ==> c in r
    requires NoDuplicates(cols) && P1Column in cols && P2Column in r
    ensures MirrorRow(r, cols)[P1Column] == r[P2Column]
    ensures MirrorRow(r, cols)[P2Column] == r[P1Column]
  {
    var cs := P1Columns(cols);
    assert StartsWith(P1Column, P1Prefix);
    assert P1Column in cs;
    forall i | 0 <= i < |cs| ensures StartsWith(cs[i], P1Prefix) {
      assert cs[i] in cs;
    }
    SwapsPlayers(r, cs);
  }

  /** With distinct partners every `P1` column the row pairs trades its value
      with its partner. */
  lemma MirrorSwapsPairs(r: Record, cols: seq<string>, c: string)
    requires forall c :: c in cols ==> c in r
    requires DistinctPartners(P1Columns(cols))
    requires c in cols && StartsWith(c, P1Prefix) && Partner(c) in r
    ensures MirrorRow(r, cols)[c] == r[Partner(c)]
    ensures MirrorRow(r, cols)[Partner(c)] == r[c]
  {
    var cs := P1Columns(cols);
    var j :| 0 <= j < |cs| && cs[j] == c;
    forall i | 0 <= i < |cs| ensures cs[i] in r {
      assert cs[i] in cs;
    }
    SwapPartnersSwaps(r, cs, j);
    PartnerOfP1(c);
    ResultIsNoPlayerColumn();
    assert c != ResultColumn && Partner(c) != ResultColumn;
  }

  /** Mirroring a mirror restores the row, up to `result`, which stays -1. */
  lemma MirrorTwice(r: Record, cols: seq<string>)
    requires forall c :: c in cols ==> c in r
    requires DistinctPartners(P1Columns(cols))
    ensures MirrorRow(MirrorRow(r, cols), cols) == r[ResultColumn := Num(-1.0)]
  {
    var cs := P1Columns(cols);
    ResultIsNoPlayerColumn();
    forall i | 0 <= i < |cs|
      ensures cs[i] in r && cs[i] != ResultColumn && Partner(cs[i]) != ResultColumn
    {
      assert cs[i] in cs;
      PartnerOfP1(cs[i]);
    }
    var m := SwapPartners(r, cs);
    SwapPartnersUpdate(m, cs, ResultColumn, Num(-1.0));
    SwapPartnersInvolution(r, cs);
  }

  function P1Cell(r: Record): Cell {
    if P1Column in r then r[P1Column] else Missing
  }

  function NamesPlayer(v: Cell): Record -> bool {
    (r: Record) => P1Cell(r) == v
  }

  /** `df['P1'].value_counts()[v]`: the rows naming `v` as P1. */
  function Appearances(rows: seq<Record>, v: Cell): nat {
    Count(rows, NamesPlayer(v))
  }

  /** The row's player is a player with at least `minMatches` rows; a
      missing player is never counted. */
  predicate Frequent(rows: seq<Record>, minMatches: int, r: Record) {
    P1Cell(r) != Missing && Appearances(rows, P1Cell(r)) >= minMatches
  }

  function KeepFrequent(rows: seq<Record>, minMatches: int): Record -> bool {
    (r: Record) => Frequent(rows, minMatches, r)
  }

  /** `filter_players_by_match_count`. */
  function FilterPlayersByMatchCount(t: Table, minMatches: int): (res: Result<Table, PipelineError>)
    requires WellFormed(t)
    ensures res.Failure? <==> P1Column !in t.columns
    ensures res.Failure? ==> res.error == MissingColumns([P1Column])
    ensures res.Success? ==>
      && WellFormed(res.value)
      && res.value.columns == t.columns
      && (forall r :: r in res.value.rows <==> r in t.rows && Frequent(t.rows, minMatches, r))
      && (forall r :: multiset(res.value.rows)[r] ==
            if Frequent(t.rows, minMatches, r) then multiset(t.rows)[r] else 0)
  {
    if P1Column !in t.columns then Failure(MissingColumns([P1Column]))
    else Success(FilterRows(t, KeepFrequent(t.rows, minMatches)))
  }

  /** A player the filter keeps keeps all of their rows. */
  lemma FilterKeepsWholePlayers(t: Table, minMatches: int, v: Cell)
    requires WellFormed(t) && P1Column in t.columns
    requires v != Missing && Appearances(t.rows, v) >= minMatches
    ensures Appearances(FilterPlayersByMatchCount(t, minMatches).value.rows, v) == Appearances(t.rows, v)
  {
    CountFilterSubsumed(t.rows, KeepFrequent(t.rows, minMatches), NamesPlayer(v));
  }

  /** After the filter every remaining player has at least `minMatches`
      rows. */
  lemma FilteredPlayersAreFrequent(t: Table, minMatches: int)
    requires WellFormed(t) && P1Column in t.columns
    ensures var out := FilterPlayersByMatchCount(t, minMatches).value.rows;
      forall r :: r in out ==> Frequent(out, minMatches, r)
  {
    var out := FilterPlayersByMatchCount(t, minMatches).value.rows;
    forall r | r in out
      ensures Frequent(out, minMatches, r)
    {
      FilterKeepsWholePlayers(t, minMatches, P1Cell(r));
    }
  }

  /** Filtering a second time removes nothing. */
  lemma FilterPlayersIdempotent(t: Table, minMatches: int)
    requires WellFormed(t) && P1Column in t.columns
    ensures var once := FilterPlayersByMatchCount(t, minMatches).value;
      FilterPlayersByMatchCount(once, minMatches) == Success(once)
  {
    var once := FilterPlayersByMatchCount(t, minMatches).value;
    FilteredPlayersAreFrequent(t, minMatches);
    forall i | 0 <= i < |once.rows|
      ensures KeepFrequent(once.rows, minMatches)(once.rows[i])
    {
      assert once.rows[i] in once.rows;
    }
    FilterAll(once.rows, KeepFrequent(once.rows, minMatches));
  }

  /** The settings `ATPDataPreprocessor` reads from the configuration. */
  datatype PreprocessConfig = PreprocessConfig(
    locationMapping: map<string, string>,
    allowedTournaments: seq<string>,
    columnsToDrop: seq<string>,
    minMatches: int)

  /** A row that still names its tournament names an allowed one that is no
      Davis Cup tie. */
  predicate FromAllowed(allowed: seq<string>, r: Record) {
    TourneyName in r ==> AllowedTournament(allowed, r) && NotDavisCup(r)
  }

  /** The three tournament steps leave only allowed, non-Davis-Cup rows. */
  lemma TournamentStepsKeepAllowed(t: Table, cfg: PreprocessConfig)
    requires WellFormed(t) && TourneyName in t.columns
    ensures var a := CleanDavisCup(t).value;
      var b := AddLocation(a, cfg.locationMapping).value;
      var c := FilterTournaments(b, cfg.allowedTournaments).value;
      && |c.rows| <= |t.rows|
      && forall r :: r in c.rows ==> FromAllowed(cfg.allowedTournaments, r)
  {
    var a := CleanDavisCup(t).value;
    var b := AddLocation(a, cfg.locationMapping).value;
    var c := FilterTournaments(b, cfg.allowedTournaments).value;
    assert |a.rows| <= |t.rows| by {
      FilterRowsSplit(t, NotDavisCup);
    }
    forall i | 0 <= i < |b.rows|
      ensures NotDavisCup(b.rows[i])
    {
      assert a.rows[i] in a.rows;
      assert b.rows[i][TourneyName] == a.rows[i][TourneyName];
    }
    forall r | r in c.rows
      ensures FromAllowed(cfg.allowedTournaments, r)
    {
      var i :| 0 <= i < |b.rows| && b.rows[i] == r;
    }
    FilterRowsSplit(b, (r: Record) => AllowedTournament(cfg.allowedTournaments, r));
  }

  /** The player renaming leaves `tourney_name` alone and produces no other
      column of that name. */
  lemma RenamesSpareTourneyName()
    ensures TourneyName !in PlayerRenames
    ensures forall c :: c in PlayerRenames ==> PlayerRenames[c] != TourneyName
  {
  }

  /** A column the renaming neither renames nor produces keeps its cells. */
  lemma RenameKeepsColumn(t: Table, ren: map<string, string>, k: string)
    requires WellFormed(t) && RenameInjective(t.columns, ren)
    requires k !in ren && forall c :: c in ren ==> ren[c] != k
    ensures forall i :: 0 <= i < |t.rows| ==>
      && (k in RenameColumns(t, ren).rows[i] <==> k in t.rows[i])
      && (k in t.rows[i] ==> RenameColumns(t, ren).rows[i][k] == t.rows[i][k])
  {
    var out := RenameColumns(t, ren);
    forall i | 0 <= i < |t.rows|
      ensures k in out.rows[i] <==> k in t.rows[i]
      ensures k in t.rows[i] ==> out.rows[i][k] == t.rows[i][k]
    {
      assert out.rows[i] == RenameRecord(t.rows[i], t.columns, ren);
      assert forall c :: c in t.rows[i] <==> c in t.columns;
      RenameRecordKeeps(t.rows[i], t.columns, ren, k);
    }
  }

  /** One record: a name the renaming neither renames nor produces keeps
      its cell. */
  lemma RenameRecordKeeps(r: Record, cols: seq<string>, ren: map<string, string>, k: string)
    requires forall c :: c in r <==> c in cols
    requires RenameInjective(cols, ren)
    requires k !in ren && forall c :: c in ren ==> ren[c] != k
    ensures k in RenameRecord(r, cols, ren) <==> k in r
    ensures k in r ==> RenameRecord(r, cols, ren)[k] == r[k]
  {
    if k in RenameRecord(r, cols, ren) {
      RenameRecordSource(r, cols, ren, k);
    }
    if k in r {
      var j :| 0 <= j < |cols| && cols[j] == k;
      RenameRecordCell(r, cols, ren, j);
    }
  }

  /** A name in the renamed record is the new name of one of the columns. */
  lemma RenameRecordSource(r: Record, cols: seq<string>, ren: map<string, string>, k: string)
    requires forall j :: 0 <= j < |cols| ==> cols[j] in r
    requires RenameInjective(cols, ren)
    requires k in RenameRecord(r, cols, ren)
    ensures exists j :: 0 <= j < |cols| && NewName(ren, cols[j]) == k
  {
    var rc := RenamedColumns(cols, ren);
    var j :| 0 <= j < |rc| && rc[j] == k;
  }

  /** Column `j`'s cell moves to its new name. */
  lemma RenameRecordCell(r: Record, cols: seq<string>, ren: map<string, string>, j: int)
    requires forall j :: 0 <= j < |cols| ==> cols[j] in r
    requires RenameInjective(cols, ren)
    requires 0 <= j < |cols|
    ensures NewName(ren, cols[j]) in RenameRecord(r, cols, ren)
    ensures RenameRecord(r, cols, ren)[NewName(ren, cols[j])] == r[cols[j]]
  {
    assert RenamedColumns(cols, ren)[j] == NewName(ren, cols[j]);
  }

  /** Renaming keeps the tournament of every row. */
  lemma RenameKeepsAllowed(t: Table, allowed: seq<string>)
    requires WellFormed(t) && RenameInjective(t.columns, PlayerRenames)
    requires forall r :: r in t.rows ==> FromAllowed(allowed, r)
    ensures forall r :: r in RenamePlayerColumns(t).rows ==> FromAllowed(allowed, r)
  {
    var out := RenamePlayerColumns(t);
    RenamesSpareTourneyName();
    RenameKeepsColumn(t, PlayerRenames, TourneyName);
    forall r | r in out.rows
      ensures FromAllowed(allowed, r)
    {
      var i :| 0 <= i < |out.rows| && out.rows[i] == r;
      assert t.rows[i] in t.rows;
    }
  }

  /** What the steps from `drop_unnecessary_columns` to
      `handle_missing_values` leave: rows of allowed tournaments, with both
      players, and `result == 1`. */
  predicate CleanRow(allowed: seq<string>, r: Record) {
    FromAllowed(allowed, r) && HasCritical(r)
  }

  lemma DropKeepsAllowed(t: Table, toDrop: seq<string>, allowed: seq<string>)
    requires WellFormed(t)
    requires forall r :: r in t.rows ==> FromAllowed(allowed, r)
    ensures forall r :: r in DropColumns(t, toDrop).rows ==> FromAllowed(allowed, r)
  {
    var out := DropColumns(t, toDrop);
    forall r | r in out.rows
      ensures FromAllowed(allowed, r)
    {
      var i :| 0 <= i < |out.rows| && out.rows[i] == r;
      assert t.rows[i] in t.rows;
    }
  }

  lemma ResultKeepsAllowed(t: Table, allowed: seq<string>)
    requires WellFormed(t)
    requires forall r :: r in t.rows ==> FromAllowed(allowed, r)
    ensures forall r :: r in CreateResultColumn(t).rows ==> FromAllowed(allowed, r) && r[ResultColumn] == Num(1.0)
  {
    var out := CreateResultColumn(t);
    forall r | r in out.rows
      ensures FromAllowed(allowed, r) && r[ResultColumn] == Num(1.0)
    {
      var i :| 0 <= i < |out.rows| && out.rows[i] == r;
      assert t.rows[i] in t.rows;
    }
  }

  /** A mirror of a clean row is clean, with `result == -1`. */
  lemma MirrorOfCleanRow(r: Record, cols: seq<string>, allowed: seq<string>)
    requires forall c :: c in cols ==> c in r
    requires NoDuplicates(cols) && P1Column in cols
    requires CleanRow(allowed, r)
    ensures CleanRow(allowed, MirrorRow(r, cols))
    ensures MirrorRow(r, cols)[ResultColumn] == Num(-1.0)
  {
    MirrorSwapsPlayers(r, cols);
    if TourneyName in r {
      assert TourneyName[..2] == "to";
      MirrorKeepsOtherColumns(r, cols, TourneyName);
    }
  }

  /** Every row of the augmented table is an original row or the mirror of
      one. */
  lemma AugmentedRowOrigin(t: Table, r: Record) returns (i: int)
    requires WellFormed(t) && DateColumn in t.columns && ResultColumn in t.columns
    requires r in Augment(t).value.rows
    ensures 0 <= i < |t.rows|
    ensures r == t.rows[i] || r == MirrorRow(t.rows[i], t.columns)
  {
    AugmentedRowsAre(t);
    i := RowOrMirror(t, Augment(t).value.rows, r);
  }

  /** A row of a table made of the originals and their mirrors is one of
      the two. */
  lemma RowOrMirror(t: Table, rows: seq<Record>, r: Record) returns (i: int)
    requires WellFormed(t)
    requires multiset(rows) == multiset(t.rows) + multiset(Mirrors(t))
    requires r in rows
    ensures 0 <= i < |t.rows|
    ensures r == t.rows[i] || r == MirrorRow(t.rows[i], t.columns)
  {
    var mirrors := Mirrors(t);
    InEitherPart(t.rows, mirrors, rows, r);
    if r in t.rows {
      i :| 0 <= i < |t.rows| && t.rows[i] == r;
    } else {
      i :| 0 <= i < |mirrors| && mirrors[i] == r;
    }
  }

  /** With a `result` column already present, the augmented rows are the
      originals and their mirrors. */
  lemma AugmentedRowsAre(t: Table)
    requires WellFormed(t) && DateColumn in t.columns && ResultColumn in t.columns
    ensures multiset(Augment(t).value.rows) == multiset(t.rows) + multiset(Mirrors(t))
  {
    PaddingKeepsRows(t);
  }

  lemma InEitherPart(a: seq<Record>, b: seq<Record>, out: seq<Record>, r: Record)
    requires multiset(out) == multiset(a) + multiset(b)
    requires r in out
    ensures r in a || r in b
  {
    assert r in multiset(out);
  }

  /** Augmenting clean rows with `result == 1` gives clean rows, each with
      `result` 1 or -1. */
  lemma AugmentKeepsClean(t: Table, allowed: seq<string>)
    requires WellFormed(t) && DateColumn in t.columns
    requires P1Column in t.columns && ResultColumn in t.columns
    requires forall r :: r in t.rows ==> CleanRow(allowed, r) && r[ResultColumn] == Num(1.0)
    ensures var out := Augment(t).value;
      && P1Column in out.columns
      && |out.rows| == 2 * |t.rows|
      && forall r :: r in out.rows ==>
        CleanRow(allowed, r) && (r[ResultColumn] == Num(1.0) || r[ResultColumn] == Num(-1.0))
  {
    var out := Augment(t).value;
    assert P1Column in ColumnSet(out.columns);
    forall r | r in out.rows
      ensures CleanRow(allowed, r) && (r[ResultColumn] == Num(1.0) || r[ResultColumn] == Num(-1.0))
    {
      var i := AugmentedRowOrigin(t, r);
      assert t.rows[i] in t.rows;
      if r != t.rows[i] {
        MirrorOfCleanRow(t.rows[i], t.columns, allowed);
      }
    }
  }

  /** The steps of `preprocess` from `clean_davis_cup` to
      `handle_missing_values`: every row left comes from an allowed
      tournament that is no Davis Cup tie, names both players and says that
      P1 won. */
  method CleanSteps(t: Table, cfg: PreprocessConfig) returns (res: Result<Table, PipelineError>)
    requires WellFormed(t)
    requires RenameInjective(WithColumn(t.columns, LocationColumn), PlayerRenames)
    ensures TourneyName !in t.columns ==> res == Failure(MissingColumns([TourneyName]))
    ensures res.Success? ==>
      var g := res.value;
      && WellFormed(g)
      && |g.rows| <= |t.rows|
      && P1Column in g.columns && ResultColumn in g.columns
      && forall r :: r in g.rows ==> CleanRow(cfg.allowedTournaments, r) && r[ResultColumn] == Num(1.0)
  {
    if TourneyName !in t.columns {
      return Failure(MissingColumns([TourneyName]));
    }
    var a := CleanDavisCup(t).value;
    var b := AddLocation(a, cfg.locationMapping).value;
    var c := FilterTournaments(b, cfg.allowedTournaments).value;
    TournamentStepsKeepAllowed(t, cfg);
    res := ColumnSteps(c, cfg.allowedTournaments, cfg.columnsToDrop);
  }

  /** The steps from `rename_player_columns` to `handle_missing_values`, on
      rows that already come from allowed tournaments. */
  method ColumnSteps(c: Table, allowed: seq<string>, columnsToDrop: seq<string>) returns (res: Result<Table, PipelineError>)
    requires WellFormed(c) && RenameInjective(c.columns, PlayerRenames)
    requires forall r :: r in c.rows ==> FromAllowed(allowed, r)
    ensures res.Success? ==>
      var g := res.value;
      && WellFormed(g)
      && |g.rows| <= |c.rows|
      && P1Column in g.columns && ResultColumn in g.columns
      && forall r :: r in g.rows ==> CleanRow(allowed, r) && r[ResultColumn] == Num(1.0)
  {
    var d := RenamePlayerColumns(c);
    RenameKeepsAllowed(c, allowed);
    var e := DropColumns(d, columnsToDrop);
    DropKeepsAllowed(d, columnsToDrop, allowed);
    var f := CreateResultColumn(e);
    ResultKeepsAllowed(e, allowed);
    var handled := HandleMissingValues(f);
    if handled.Failure? {
      return Failure(handled.error);
    }
    var g := handled.value;
    FilterRowsSplit(f, HasCritical);
    assert P1Column in g.columns by {
      assert P1Column in CriticalColumns;
    }
    return Success(g);
  }

  /** The last step keeps clean rows clean, and every row it keeps belongs
      to a player with at least `minMatches` rows in its result. */
  lemma PlayerFilterKeepsClean(h: Table, minMatches: int, allowed: seq<string>, augment: bool)
    requires WellFormed(h) && P1Column in h.columns
    requires forall r :: r in h.rows ==>
      CleanRow(allowed, r) && (r[ResultColumn] == Num(1.0) || (augment && r[ResultColumn] == Num(-1.0)))
    ensures var out := FilterPlayersByMatchCount(h, minMatches).value;
      && WellFormed(out)
      && |out.rows| <= |h.rows|
      && (forall r :: r in out.rows ==>
            CleanRow(allowed, r) && (r[ResultColumn] == Num(1.0) || (augment && r[ResultColumn] == Num(-1.0))))
      && (forall r :: r in out.rows ==> Frequent(out.rows, minMatches, r))
  {
    FilteredPlayersAreFrequent(h, minMatches);
    FilterRowsSplit(h, KeepFrequent(h.rows, minMatches));
  }

  /** `preprocess`: the steps in the source's order, `augment` standing for
      `augment_data`. Every surviving row comes from an allowed tournament
      that is no Davis Cup tie, names both players, says who won, and its
      player has at least `min_matches` rows. */
  method Preprocess(t: Table, cfg: PreprocessConfig, augment: bool) returns (res: Result<Table, PipelineError>)
    requires WellFormed(t)
    requires RenameInjective(WithColumn(t.columns, LocationColumn), PlayerRenames)
    ensures TourneyName !in t.columns ==> res == Failure(MissingColumns([TourneyName]))
    ensures res.Success? ==>
      var out := res.value;
      && WellFormed(out)
      && |out.rows| <= (if augment then 2 * |t.rows| else |t.rows|)
      && (forall r :: r in out.rows ==> CleanRow(cfg.allowedTournaments, r))
      && (forall r :: r in out.rows ==>
            r[ResultColumn] == Num(1.0) || (augment && r[ResultColumn] == Num(-1.0)))
      && (forall r :: r in out.rows ==> Frequent(out.rows, cfg.minMatches, r))
  {
    var cleaned := CleanSteps(t, cfg);
    if cleaned.Failure? {
      return Failure(cleaned.error);
    }
    var g := cleaned.value;
    var h := g;
    if augment {
      var augmented := Augment(g);
      if augmented.Failure? {
        return Failure(augmented.error);
      }
      AugmentKeepsClean(g, cfg.allowedTournaments);
      h := augmented.value;
    }
    PlayerFilterKeepsClean(h, cfg.minMatches, cfg.allowedTournaments, augment);
    return Success(FilterPlayersByMatchCount(h, cfg.minMatches).value);
  }
}
