/** The raw match table the preprocessing steps work on: named columns and
    rows of cells. A cell is text, a number, or missing (pandas' NaN / NaT).
    A well-formed table has distinct column names and every row holds a
    cell for exactly those columns. */
module Tables {
  import opened Seqs

  datatype Cell = Text(s: string) | Num(x: real) | Missing

  type Record = map<string, Cell>

  datatype Table = Table(columns: seq<string>, rows: seq<Record>)

  /** Asking a table for a column it lacks raises `KeyError`. */
  datatype PipelineError = MissingColumns(names: seq<string>)

  function ColumnSet(cols: seq<string>): set<string> {
    set c | c in cols
  }

  predicate WellFormed(t: Table) {
    && NoDuplicates(t.columns)
    && forall i :: 0 <= i < |t.rows| ==> t.rows[i].Keys == ColumnSet(t.columns)
  }

  /** Two records with the same cells are equal. */
  lemma RecordExtensionality(a: Record, b: Record)
    requires forall k :: k in a ==> k in b
    requires forall k :: k in b ==> k in a && a[k] == b[k]
    ensures a == b
  {
    assert a.Keys == b.Keys;
  }

  /** `str.startswith`. */
  predicate StartsWith(s: string, prefix: string) {
    |prefix| <= |s| && s[..|prefix|] == prefix
  }

  /** `pat` appears in `s` starting at position `k`. */
  predicate OccursAt(s: string, pat: string, k: int) {
    0 <= k && k + |pat| <= |s| && s[k..k + |pat|] == pat
  }

  /** `pat in s`: `pat` appears somewhere in `s`. */
  predicate Occurs(s: string, pat: string) {
    exists k :: 0 <= k <= |s| && OccursAt(s, pat, k)
  }

  /** An occurrence after the first character is an occurrence. */
  lemma OccursInTail(s: string, pat: string)
    requires |s| > 0
    ensures Occurs(s[1..], pat) ==> Occurs(s, pat)
  {
    if Occurs(s[1..], pat) {
      var k :| 0 <= k <= |s[1..]| && OccursAt(s[1..], pat, k);
      assert s[k + 1..k + 1 + |pat|] == s[1..][k..k + |pat|];
      assert OccursAt(s, pat, k + 1);
    }
  }

  /** `str.replace(pat, sub)`: every non-overlapping occurrence of `pat`,
      scanned left to right, becomes `sub`. A name without `pat` is left
      alone; a name that starts with its only `pat` gets `sub` in front of
      the same tail. */
  function ReplaceAll(s: string, pat: string, sub: string): (r: string)
    requires |pat| > 0
    ensures |pat| == |sub| ==> |r| == |s|
    ensures !Occurs(s, pat) ==> r == s
    ensures StartsWith(s, pat) && !Occurs(s[|pat|..], pat) ==> r == sub + s[|pat|..]
    decreases |s|
  {
    if |s| < |pat| then s
    else if s[..|pat|] == pat then
      assert OccursAt(s, pat, 0);
      sub + ReplaceAll(s[|pat|..], pat, sub)
    else
      OccursInTail(s, pat);
      var rest := ReplaceAll(s[1..], pat, sub);
      assert !Occurs(s, pat) ==> [s[0]] + s[1..] == s;
      [s[0]] + rest
  }

  /** Replacing a pattern by itself changes nothing. */
  lemma {:induction false} ReplaceByItself(s: string, pat: string)
    requires |pat| > 0
    ensures ReplaceAll(s, pat, pat) == s
    decreases |s|
  {
    if |s| < |pat| {
    } else if s[..|pat|] == pat {
      ReplaceByItself(s[|pat|..], pat);
      assert pat + s[|pat|..] == s;
    } else {
      ReplaceByItself(s[1..], pat);
      assert [s[0]] + s[1..] == s;
    }
  }

  /** A boolean mask over the rows (`df[mask]`): same columns, the rows that
      pass, in order. */
  function FilterRows(t: Table, keep: Record -> bool): (out: Table)
    requires WellFormed(t)
    ensures WellFormed(out)
    ensures out.columns == t.columns
    ensures |out.rows| == Count(t.rows, keep)
    ensures forall r :: r in out.rows <==> r in t.rows && keep(r)
    ensures forall r :: multiset(out.rows)[r] == if keep(r) then multiset(t.rows)[r] else 0
  {
    var rows := Filter(t.rows, keep);
    assert forall i :: 0 <= i < |rows| ==> rows[i] in t.rows;
    Table(t.columns, rows)
  }

  /** A filter applied twice is the filter applied once. */
  lemma {:induction false} FilterRowsIdempotent(t: Table, keep: Record -> bool)
    requires WellFormed(t)
    ensures FilterRows(FilterRows(t, keep), keep) == FilterRows(t, keep)
  {
    FilterIdempotent(t.rows, keep);
  }

  /** The rows a filter keeps and the rows it drops account for all rows. */
  lemma FilterRowsSplit(t: Table, keep: Record -> bool)
    requires WellFormed(t)
    ensures |FilterRows(t, keep).rows| + |FilterRows(t, (r: Record) => !keep(r)).rows| == |t.rows|
  {
    CountSplit(t.rows, keep, (r: Record) => !keep(r));
  }

  /** Writes column `c` of every row with `f` of that row, adding the column
      at the end when it is new (`df[c] = ...`). */
  function SetColumn(t: Table, c: string, f: Record -> Cell): (out: Table)
    requires WellFormed(t)
    ensures WellFormed(out)
    ensures out.columns == if c in t.columns then t.columns else t.columns + [c]
    ensures |out.rows| == |t.rows|
    ensures forall i :: 0 <= i < |t.rows| ==> out.rows[i] == t.rows[i][c := f(t.rows[i])]
  {
    var cols := if c in t.columns then t.columns else t.columns + [c];
    assert ColumnSet(cols) == ColumnSet(t.columns) + {c};
    Table(cols, MapSeq(t.rows, (r: Record) => r[c := f(r)]))
  }
}
