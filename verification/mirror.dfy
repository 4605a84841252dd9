/** The mirror row of `augment_with_reversed_matches`: every column whose
    name starts with `P1` trades its value with its partner, the name with
    each `P1` replaced by `P2`, when the table has that partner; the loop
    visits the `P1` columns in table order, one swap after the other. */
module Mirror {
  import opened Seqs
  import opened Tables

  const P1Prefix: string := "P1"
  const P2Prefix: string := "P2"

  function Partner(c: string): string {
    ReplaceAll(c, P1Prefix, P2Prefix)
  }

  /** The partner of a `P1` column is a `P2` column of the same length. */
  lemma PartnerOfP1(c: string)
    requires StartsWith(c, P1Prefix)
    ensures StartsWith(Partner(c), P2Prefix) && |Partner(c)| == |c|
  {
    assert c[..|P1Prefix|] == P1Prefix;
  }

  /** `P1` itself is the only `P1` column whose partner is `P2`. */
  lemma OnlyP1PairsWithP2(c: string)
    requires StartsWith(c, P1Prefix) && Partner(c) == "P2"
    ensures c == "P1"
  {
    PartnerOfP1(c);
    assert c == c[..2];
  }

  /** The `P1` columns, in table order. */
  function P1Columns(cols: seq<string>): (cs: seq<string>)
    ensures forall c :: c in cs <==> c in cols && StartsWith(c, P1Prefix)
    ensures NoDuplicates(cols) ==> NoDuplicates(cs)
  {
    var isP1 := (c: string) => StartsWith(c, P1Prefix);
    if NoDuplicates(cols) then FilterNoDuplicates(cols, isP1); Filter(cols, isP1)
    else Filter(cols, isP1)
  }

  predicate AllP1(cs: seq<string>) {
    forall i :: 0 <= i < |cs| ==> StartsWith(cs[i], P1Prefix)
  }

  function SwapCells(r: Record, a: string, b: string): (m: Record)
    requires a in r && b in r
    ensures m.Keys == r.Keys
    ensures m[a] == r[b] && m[b] == r[a]
    ensures forall k :: k in r && k != a && k != b ==> m[k] == r[k]
  {
    r[a := r[b]][b := r[a]]
  }

  /** The swap loop over the columns `cs` of one row. */
  function SwapPartners(r: Record, cs: seq<string>): (m: Record)
    requires forall i :: 0 <= i < |cs| ==> cs[i] in r
    ensures m.Keys == r.Keys
    decreases |cs|
  {
    if cs == [] then r
    else
      var c := cs[0];
      var p := Partner(c);
      SwapPartners(if p in r then SwapCells(r, c, p) else r, cs[1..])
  }

  /** A pair `(a, Partner(a))` no other step of the loop names ends up
      swapped. */
  lemma {:induction false} SwapIsolatedPair(r: Record, cs: seq<string>, j: int)
    requires forall i :: 0 <= i < |cs| ==> cs[i] in r
    requires 0 <= j < |cs| && Partner(cs[j]) in r
    requires forall i :: 0 <= i < |cs| && i != j ==>
      && cs[i] != cs[j] && cs[i] != Partner(cs[j])
      && Partner(cs[i]) != cs[j] && Partner(cs[i]) != Partner(cs[j])
    ensures SwapPartners(r, cs)[cs[j]] == r[Partner(cs[j])]
    ensures SwapPartners(r, cs)[Partner(cs[j])] == r[cs[j]]
    decreases |cs|
  {
    var a := cs[j];
    var pa := Partner(a);
    var c := cs[0];
    var p := Partner(c);
    var r1 := if p in r then SwapCells(r, c, p) else r;
    if j == 0 {
      UntouchedOrUnpaired(r1, cs[1..], a);
      UntouchedOrUnpaired(r1, cs[1..], pa);
    } else {
      SwapIsolatedPair(r1, cs[1..], j - 1);
    }
  }

  /** The columns a loop can swap without interference: distinct `P1`
      columns with distinct partners. */
  predicate DistinctPartners(cs: seq<string>) {
    && AllP1(cs)
    && NoDuplicates(cs)
    && forall i, j :: 0 <= i < j < |cs| ==> Partner(cs[i]) != Partner(cs[j])
  }

  lemma IsolatedWhenDistinct(cs: seq<string>, j: int)
    requires DistinctPartners(cs) && 0 <= j < |cs|
    ensures forall i :: 0 <= i < |cs| && i != j ==>
      && cs[i] != cs[j] && cs[i] != Partner(cs[j])
      && Partner(cs[i]) != cs[j] && Partner(cs[i]) != Partner(cs[j])
  {
    PartnerOfP1(cs[j]);
    forall i | 0 <= i < |cs| && i != j
      ensures cs[i] != Partner(cs[j]) && Partner(cs[i]) != cs[j]
    {
      PartnerOfP1(cs[i]);
    }
  }

  /** With distinct partners every `P1` column trades its value with its
      partner when the row has one. */
  lemma SwapPartnersSwaps(r: Record, cs: seq<string>, j: int)
    requires forall i :: 0 <= i < |cs| ==> cs[i] in r
    requires DistinctPartners(cs) && 0 <= j < |cs| && Partner(cs[j]) in r
    ensures SwapPartners(r, cs)[cs[j]] == r[Partner(cs[j])]
    ensures SwapPartners(r, cs)[Partner(cs[j])] == r[cs[j]]
  {
    IsolatedWhenDistinct(cs, j);
    SwapIsolatedPair(r, cs, j);
  }

  /** The mirror's `P1` and `P2` are the row's `P2` and `P1`, whatever the
      other `P1` columns are: only `P1` pairs with `P2`. */
  lemma SwapsPlayers(r: Record, cs: seq<string>)
    requires forall i :: 0 <= i < |cs| ==> cs[i] in r
    requires AllP1(cs) && NoDuplicates(cs)
    requires "P1" in cs && "P2" in r
    ensures SwapPartners(r, cs)["P1"] == r["P2"] && SwapPartners(r, cs)["P2"] == r["P1"]
  {
    var j :| 0 <= j < |cs| && cs[j] == "P1";
    assert Partner("P1") == "P2";
    forall i | 0 <= i < |cs| && i != j
      ensures cs[i] != "P2" && Partner(cs[i]) != "P1" && Partner(cs[i]) != "P2"
    {
      PartnerOfP1(cs[i]);
      if Partner(cs[i]) == "P2" {
        OnlyP1PairsWithP2(cs[i]);
      }
    }
    SwapIsolatedPair(r, cs, j);
  }

  /** Swapping twice restores the row. */
  lemma SwapPartnersInvolution(r: Record, cs: seq<string>)
    requires forall i :: 0 <= i < |cs| ==> cs[i] in r
    requires DistinctPartners(cs)
    ensures SwapPartners(SwapPartners(r, cs), cs) == r
  {
    var m := SwapPartners(r, cs);
    var mm := SwapPartners(m, cs);
    forall k | k in r
      ensures mm[k] == r[k]
    {
      if j :| 0 <= j < |cs| && cs[j] == k && Partner(k) in r {
        SwapPartnersSwaps(r, cs, j);
        SwapPartnersSwaps(m, cs, j);
      } else if j :| 0 <= j < |cs| && Partner(cs[j]) == k {
        SwapPartnersSwaps(r, cs, j);
        SwapPartnersSwaps(m, cs, j);
      } else {
        forall i | 0 <= i < |cs|
          ensures cs[i] != k || Partner(cs[i]) !in r
        {
        }
        UntouchedOrUnpaired(r, cs, k);
        UntouchedOrUnpaired(m, cs, k);
      }
    }
  }

  /** Writing a column the loop never names commutes with the loop. */
  lemma {:induction false} SwapPartnersUpdate(r: Record, cs: seq<string>, k: string, v: Cell)
    requires forall i :: 0 <= i < |cs| ==> cs[i] in r
    requires forall i :: 0 <= i < |cs| ==> cs[i] != k && Partner(cs[i]) != k
    ensures SwapPartners(r[k := v], cs) == SwapPartners(r, cs)[k := v]
    decreases |cs|
  {
    if cs != [] {
      var c := cs[0];
      var p := Partner(c);
      var r1 := if p in r then SwapCells(r, c, p) else r;
      assert (if p in r[k := v] then SwapCells(r[k := v], c, p) else r[k := v]) == r1[k := v];
      SwapPartnersUpdate(r1, cs[1..], k, v);
    }
  }

  /** A column that is no partner, and is a `P1` column only without a
      partner in the row, keeps its value. */
  lemma {:induction false} UntouchedOrUnpaired(r: Record, cs: seq<string>, k: string)
    requires forall i :: 0 <= i < |cs| ==> cs[i] in r
    requires k in r
    requires forall i :: 0 <= i < |cs| ==> (cs[i] != k || Partner(cs[i]) !in r) && Partner(cs[i]) != k
    ensures SwapPartners(r, cs)[k] == r[k]
    decreases |cs|
  {
    if cs != [] {
      var c := cs[0];
      var p := Partner(c);
      var r1 := if p in r then SwapCells(r, c, p) else r;
      UntouchedOrUnpaired(r1, cs[1..], k);
    }
  }
}
