/** The HIRADC (hazard identification and risk assessment) branch: how a sheet
    is classified, the derived Risk Rating column, its maximum, and the
    Likelihood × Severity count matrix behind the heat map. */
module Risk {
  import opened Tables
  import opened SeriesOps

  datatype SheetKind = RiskAssessment | IncidentTracking

  /** A sheet is a risk assessment exactly when both factor columns are present;
      every other sheet, including one with only one of them, is incident data. */
  function Classify(columns: seq<string>): (k: SheetKind)
    ensures k == RiskAssessment <==> LikelihoodColumn in columns && SeverityColumn in columns
    ensures k == IncidentTracking <==> LikelihoodColumn !in columns || SeverityColumn !in columns
  {
    if LikelihoodColumn in columns && SeverityColumn in columns then RiskAssessment
    else IncidentTracking
  }

  predicate IsNumeric(c: Option<Value>)
  {
    c.Some? && c.value.Number?
  }

  /** The rating cell of one row: Likelihood × Severity, missing when either
      factor is missing or not a number. */
  function RatingCell(r: Row): Option<Value>
  {
    match (Get(r, LikelihoodColumn), Get(r, SeverityColumn))
    case (Some(Number(l)), Some(Number(s))) => Some(Number(l * s))
    case _ => None
  }

  /** The Risk Rating column, Likelihood times Severity: every row gets its
      rating, an existing Risk Rating column is overwritten in place, otherwise
      the column is appended, and no other cell changes. */
  function Rated(t: Table): (rt: Table)
    ensures rt.columns == if RiskRatingColumn in t.columns then t.columns else t.columns + [RiskRatingColumn]
    ensures |rt.rows| == |t.rows|
    ensures forall i, c :: 0 <= i < |t.rows| && c != RiskRatingColumn ==>
      Get(rt.rows[i], c) == Get(t.rows[i], c)
    ensures forall i :: 0 <= i < |t.rows| ==>
      var l, s := Get(t.rows[i], LikelihoodColumn), Get(t.rows[i], SeverityColumn);
      Get(rt.rows[i], RiskRatingColumn)
        == if IsNumeric(l) && IsNumeric(s) then Some(Number(l.value.number * s.value.number)) else None
  {
    var columns := if RiskRatingColumn in t.columns then t.columns else t.columns + [RiskRatingColumn];
    Table(columns, seq(|t.rows|, i requires 0 <= i < |t.rows| => t.rows[i][RiskRatingColumn := RatingCell(t.rows[i])]))
  }

  /** The numbers in one column, in row order (non-numbers are skipped). */
  function NumbersIn(rows: seq<Row>, column: string): (xs: seq<int>)
    ensures forall x :: x in xs <==> exists i :: 0 <= i < |rows| && Get(rows[i], column) == Some(Number(x))
  {
    if rows == [] then []
    else
      var rest := NumbersIn(rows[1..], column);
      assert forall i :: 1 <= i < |rows| ==> rows[i] == rows[1..][i - 1];
      match Get(rows[0], column)
      case Some(Number(x)) => [x] + rest
      case _ => rest
  }

  /** `max()` with missing values skipped; absent for an empty series. */
  function MaxOf(xs: seq<int>): (m: Option<int>)
    ensures m.None? <==> xs == []
    ensures m.Some? ==> m.value in xs && forall x :: x in xs ==> x <= m.value
  {
    if xs == [] then None
    else
      assert xs == [xs[0]] + xs[1..];
      match MaxOf(xs[1..])
      case None => Some(xs[0])
      case Some(y) => Some(if xs[0] >= y then xs[0] else y)
  }

  /** The highest Risk Rating of the rated table. */
  function MaxRating(rated: Table): Option<int>
  {
    MaxOf(NumbersIn(rated.rows, RiskRatingColumn))
  }

  /** The reported maximum is the rating of some row and no row rates higher;
      it is absent exactly when no row has both factors as numbers. */
  lemma MaxRatingSpec(t: Table)
    ensures var m := MaxRating(Rated(t));
      && (m.None? <==> forall i :: 0 <= i < |t.rows| ==> RatingCell(t.rows[i]).None?)
      && (m.Some? ==> exists i :: 0 <= i < |t.rows| && RatingCell(t.rows[i]) == Some(Number(m.value)))
      && (m.Some? ==> forall i :: 0 <= i < |t.rows| && RatingCell(t.rows[i]).Some? ==>
            RatingCell(t.rows[i]).value.number <= m.value)
  {
    var rt := Rated(t);
    assert forall i :: 0 <= i < |t.rows| ==> Get(rt.rows[i], RiskRatingColumn) == RatingCell(t.rows[i]);
    var xs := NumbersIn(rt.rows, RiskRatingColumn);
    forall i | 0 <= i < |t.rows| && RatingCell(t.rows[i]).Some?
      ensures RatingCell(t.rows[i]).value.number in xs
    {
      assert Get(rt.rows[i], RiskRatingColumn) == Some(Number(RatingCell(t.rows[i]).value.number));
    }
  }

  predicate BothPresent(r: Row)
  {
    Get(r, LikelihoodColumn).Some? && Get(r, SeverityColumn).Some?
  }

  /** The (Likelihood, Severity) pairs of the rows that have both; `crosstab`
      drops the other rows. */
  function Pairs(rows: seq<Row>): (ps: seq<(Value, Value)>)
    ensures |ps| == |Keep(rows, r => BothPresent(r))|
    ensures forall l, s :: (l, s) in ps <==>
      exists i :: 0 <= i < |rows| && Get(rows[i], LikelihoodColumn) == Some(l) && Get(rows[i], SeverityColumn) == Some(s)
  {
    if rows == [] then []
    else
      var rest := Pairs(rows[1..]);
      assert forall i :: 1 <= i < |rows| ==> rows[i] == rows[1..][i - 1];
      match (Get(rows[0], LikelihoodColumn), Get(rows[0], SeverityColumn))
      case (Some(l), Some(s)) => [(l, s)] + rest
      case _ => rest
  }

  /** The likelihoods of the observed pairs. */
  function Likelihoods(ps: seq<(Value, Value)>): (ls: seq<Value>)
    ensures |ls| == |ps|
    ensures forall i :: 0 <= i < |ps| ==> ls[i] == ps[i].0
  {
    if ps == [] then [] else [ps[0].0] + Likelihoods(ps[1..])
  }

  /** The severities of the observed pairs. */
  function Severities(ps: seq<(Value, Value)>): (ss: seq<Value>)
    ensures |ss| == |ps|
    ensures forall i :: 0 <= i < |ps| ==> ss[i] == ps[i].1
  {
    if ps == [] then [] else [ps[0].1] + Severities(ps[1..])
  }

  /** One row of the matrix: the count of each (l, s) for s in `ss`. */
  function CountRow(ps: seq<(Value, Value)>, l: Value, ss: seq<Value>): (row: seq<nat>)
    ensures |row| == |ss|
    ensures forall j :: 0 <= j < |ss| ==> row[j] == Count(ps, (l, ss[j]))
  {
    if ss == [] then [] else [Count(ps, (l, ss[0]))] + CountRow(ps, l, ss[1..])
  }

  function Grid(ps: seq<(Value, Value)>, ls: seq<Value>, ss: seq<Value>): (g: seq<seq<nat>>)
    ensures |g| == |ls|
    ensures forall i :: 0 <= i < |ls| ==> g[i] == CountRow(ps, ls[i], ss)
  {
    if ls == [] then [] else [CountRow(ps, ls[0], ss)] + Grid(ps, ls[1..], ss)
  }

  /** The cross-tabulation of Likelihood against Severity: Likelihood values as
      rows, Severity values as columns, each cell a count of rows. */
  datatype RiskMatrix = RiskMatrix(likelihoods: seq<Value>, severities: seq<Value>, cells: seq<seq<nat>>)

  /** The axes are the observed values (each once) of the rows that have both
      factors, and cell (l, s) counts the rows with exactly that pair. */
  function Crosstab(t: Table): (m: RiskMatrix)
    ensures NoDup(m.likelihoods) && NoDup(m.severities)
    ensures forall l :: l in m.likelihoods <==> l in Likelihoods(Pairs(t.rows))
    ensures forall s :: s in m.severities <==> s in Severities(Pairs(t.rows))
    ensures |m.cells| == |m.likelihoods|
    ensures forall i, j :: 0 <= i < |m.likelihoods| && 0 <= j < |m.severities| ==>
      |m.cells[i]| == |m.severities| && m.cells[i][j] == Count(Pairs(t.rows), (m.likelihoods[i], m.severities[j]))
  {
    var ps := Pairs(t.rows);
    var ls := Distinct(Likelihoods(ps));
    var ss := Distinct(Severities(ps));
    RiskMatrix(ls, ss, Grid(ps, ls, ss))
  }

  function SumSeq(xs: seq<nat>): nat
  {
    if xs == [] then 0 else xs[0] + SumSeq(xs[1..])
  }

  function SumGrid(g: seq<seq<nat>>): nat
  {
    if g == [] then 0 else SumSeq(g[0]) + SumGrid(g[1..])
  }

  /** Sum of column `j` of a grid. */
  function SumColumn(g: seq<seq<nat>>, j: nat): nat
    requires forall i :: 0 <= i < |g| ==> j < |g[i]|
  {
    if g == [] then 0 else g[0][j] + SumColumn(g[1..], j)
  }

  lemma {:induction false} PairsAppend(a: seq<(Value, Value)>, b: seq<(Value, Value)>)
    ensures Likelihoods(a + b) == Likelihoods(a) + Likelihoods(b)
    ensures Severities(a + b) == Severities(a) + Severities(b)
  {
  }

  lemma {:induction false} CountRowAppend(a: seq<(Value, Value)>, b: seq<(Value, Value)>, l: Value, ss: seq<Value>)
    ensures SumSeq(CountRow(a + b, l, ss)) == SumSeq(CountRow(a, l, ss)) + SumSeq(CountRow(b, l, ss))
  {
    if ss != [] {
      assert multiset(a + b) == multiset(a) + multiset(b);
      CountRowAppend(a, b, l, ss[1..]);
    }
  }

  lemma {:induction false} CountRowSingle(p: (Value, Value), l: Value, ss: seq<Value>)
    requires NoDup(ss)
    ensures SumSeq(CountRow([p], l, ss)) == if p.0 == l && p.1 in ss then 1 else 0
  {
    if ss != [] {
      NoDupTail(ss);
      CountRowSingle(p, l, ss[1..]);
      assert p.1 in ss <==> p.1 == ss[0] || p.1 in ss[1..];
    }
  }

  lemma {:induction false} CountRowNothing(l: Value, ss: seq<Value>)
    ensures SumSeq(CountRow([], l, ss)) == 0
  {
    if ss != [] { CountRowNothing(l, ss[1..]); }
  }

  /** A row of the matrix sums to the number of rows with that Likelihood. */
  lemma {:induction false} RowTotal(ps: seq<(Value, Value)>, l: Value, ss: seq<Value>)
    requires NoDup(ss)
    requires forall s :: s in Severities(ps) ==> s in ss
    ensures SumSeq(CountRow(ps, l, ss)) == Count(Likelihoods(ps), l)
  {
    if ps == [] {
      CountRowNothing(l, ss);
    } else {
      var n := |ps| - 1;
      var init, last := ps[..n], ps[n];
      assert ps == init + [last];
      assert forall s :: s in Severities(init) ==> s in ss by {
        PairsAppend(init, [last]);
      }
      assert last.1 in ss by {
        PairsAppend(init, [last]);
        assert Severities(ps)[n] == last.1;
      }
      CountRowAppend(init, [last], l, ss);
      CountRowSingle(last, l, ss);
      RowTotal(init, l, ss);
      LikelihoodsCountSnoc(init, last, l);
    }
  }

  lemma LikelihoodsCountSnoc(init: seq<(Value, Value)>, last: (Value, Value), l: Value)
    ensures Count(Likelihoods(init + [last]), l) == Count(Likelihoods(init), l) + (if last.0 == l then 1 else 0)
  {
    PairsAppend(init, [last]);
    assert multiset(Likelihoods(init + [last])) == multiset(Likelihoods(init)) + multiset{last.0};
  }

  lemma {:induction false} GridTotal(ps: seq<(Value, Value)>, ls: seq<Value>, ss: seq<Value>)
    requires NoDup(ss)
    requires forall s :: s in Severities(ps) ==> s in ss
    ensures SumGrid(Grid(ps, ls, ss)) == Total(Tally(ls, Likelihoods(ps)))
  {
    if ls != [] {
      RowTotal(ps, ls[0], ss);
      GridTotal(ps, ls[1..], ss);
      assert Grid(ps, ls, ss)[1..] == Grid(ps, ls[1..], ss);
    }
  }

  /** The cells of the matrix sum to the number of rows with both factors present. */
  lemma MatrixTotal(t: Table)
    ensures SumGrid(Crosstab(t).cells) == |Pairs(t.rows)|
    ensures |Pairs(t.rows)| == |Keep(t.rows, r => BothPresent(r))|
  {
    var ps := Pairs(t.rows);
    var ls := Distinct(Likelihoods(ps));
    GridTotal(ps, ls, Distinct(Severities(ps)));
    TallyTotal(ls, Likelihoods(ps));
  }

  /** Each row of the matrix sums to the number of rows with that Likelihood
      (and a Severity). */
  lemma MatrixRowTotals(t: Table, i: nat)
    requires i < |Crosstab(t).likelihoods|
    ensures SumSeq(Crosstab(t).cells[i]) == Count(Likelihoods(Pairs(t.rows)), Crosstab(t).likelihoods[i])
  {
    var ps := Pairs(t.rows);
    RowTotal(ps, Distinct(Likelihoods(ps))[i], Distinct(Severities(ps)));
  }

  /** Column `j` of the grid sums to the count of `ss[j]` among the severities. */
  lemma {:induction false} ColumnTotal(ps: seq<(Value, Value)>, ls: seq<Value>, ss: seq<Value>, j: nat)
    requires j < |ss|
    ensures SumColumn(Grid(ps, ls, ss), j) == Total(Tally(Pairings(ls, ss[j]), ps))
  {
    if ls != [] {
      ColumnTotal(ps, ls[1..], ss, j);
      assert Grid(ps, ls, ss)[1..] == Grid(ps, ls[1..], ss);
    }
  }

  /** The keys (l, s) for every l in `ls`. */
  function Pairings(ls: seq<Value>, s: Value): (ks: seq<(Value, Value)>)
    ensures |ks| == |ls|
    ensures forall i :: 0 <= i < |ls| ==> ks[i] == (ls[i], s)
  {
    if ls == [] then [] else [(ls[0], s)] + Pairings(ls[1..], s)
  }

  lemma {:induction false} PairingsSingle(p: (Value, Value), ls: seq<Value>, s: Value)
    requires NoDup(ls)
    ensures Total(Tally(Pairings(ls, s), [p])) == if p.1 == s && p.0 in ls then 1 else 0
  {
    if ls != [] {
      NoDupTail(ls);
      PairingsSingle(p, ls[1..], s);
      assert Pairings(ls, s)[1..] == Pairings(ls[1..], s);
      assert p.0 in ls <==> p.0 == ls[0] || p.0 in ls[1..];
    }
  }

  /** Counting the pairs (l, s) over every observed Likelihood l counts the
      rows with Severity s. */
  lemma {:induction false} PairingsTotal(ps: seq<(Value, Value)>, ls: seq<Value>, s: Value)
    requires NoDup(ls)
    requires forall l :: l in Likelihoods(ps) ==> l in ls
    ensures Total(Tally(Pairings(ls, s), ps)) == Count(Severities(ps), s)
  {
    if ps == [] {
      TallyNothing(Pairings(ls, s));
    } else {
      var n := |ps| - 1;
      var init := ps[..n];
      var last := ps[n];
      var ks := Pairings(ls, s);
      assert ps == init + [last];
      assert forall l :: l in Likelihoods(init) ==> l in ls by {
        PairsAppend(init, [last]);
      }
      PairingsTotal(init, ls, s);
      PairingsSingle(last, ls, s);
      TallyAppend(ks, init, [last]);
      SeveritiesCountSnoc(init, last, s);
    }
  }

  lemma SeveritiesCountSnoc(init: seq<(Value, Value)>, last: (Value, Value), s: Value)
    ensures Count(Severities(init + [last]), s) == Count(Severities(init), s) + (if last.1 == s then 1 else 0)
  {
    PairsAppend(init, [last]);
    assert multiset(Severities(init + [last])) == multiset(Severities(init)) + multiset{last.1};
  }

  /** Each column of the matrix sums to the number of rows with that Severity
      (and a Likelihood). */
  lemma MatrixColumnTotals(t: Table, j: nat)
    requires j < |Crosstab(t).severities|
    ensures forall i :: 0 <= i < |Crosstab(t).cells| ==> j < |Crosstab(t).cells[i]|
    ensures SumColumn(Crosstab(t).cells, j) == Count(Severities(Pairs(t.rows)), Crosstab(t).severities[j])
  {
    var ps := Pairs(t.rows);
    var m := Crosstab(t);
    ColumnTotal(ps, m.likelihoods, m.severities, j);
    PairingsTotal(ps, m.likelihoods, m.severities[j]);
  }
}
