/** The count pivot every dashboard builds: group records by a (row key,
    column key) pair, count them over the full cross product of keys with 0
    for absent pairs, then add a `Total` column (row sums), rank the rows by
    it, move it first, and add a `Total` row (column sums). */
module Pivot {
  import opened Common

  /** A column is a key of the pivot's column dimension or the `Total` column. */
  datatype ColLabel<C> = Col(key: C) | TotalCol
  /** A row is a key of the pivot's row dimension or the `Total` row. */
  datatype RowLabel<R> = RowKey(key: R) | TotalRow
  datatype Row<R> = Row(name: RowLabel<R>, cells: seq<int>)
  datatype Table<R, C> = Table(cols: seq<ColLabel<C>>, rows: seq<Row<R>>)

  /** Column labels are unique and every row has one cell per column. */
  predicate WellFormed<R, C(==)>(t: Table<R, C>)
  {
    && Distinct(t.cols)
    && forall i :: 0 <= i < |t.rows| ==> |t.rows[i].cells| == |t.cols|
  }

  // ---------------------------------------------------------------------
  // Counting

  /** How many records have their row key among `rs` and their column key among `cs`. */
  function Matches<R(==), C(==)>(pairs: seq<(R, C)>, rs: seq<R>, cs: seq<C>): nat
  {
    if pairs == [] then 0
    else (if pairs[0].0 in rs && pairs[0].1 in cs then 1 else 0) + Matches(pairs[1..], rs, cs)
  }

  /** `groupby([row, col]).size()` for one group. */
  function Count<R(==), C(==)>(pairs: seq<(R, C)>, r: R, c: C): nat
  {
    Matches(pairs, [r], [c])
  }

  lemma {:induction false} MatchesSplitCols<R, C>(pairs: seq<(R, C)>, rs: seq<R>, c: C, cs: seq<C>)
    requires c !in cs
    ensures Matches(pairs, rs, [c] + cs) == Matches(pairs, rs, [c]) + Matches(pairs, rs, cs)
  {
    if pairs != [] {
      MatchesSplitCols(pairs[1..], rs, c, cs);
    }
  }

  lemma {:induction false} MatchesSplitRows<R, C>(pairs: seq<(R, C)>, r: R, rs: seq<R>, cs: seq<C>)
    requires r !in rs
    ensures Matches(pairs, [r] + rs, cs) == Matches(pairs, [r], cs) + Matches(pairs, rs, cs)
  {
    if pairs != [] {
      MatchesSplitRows(pairs[1..], r, rs, cs);
    }
  }

  /** With no row keys or no column keys, nothing is counted. */
  lemma {:induction false} MatchesNone<R, C>(pairs: seq<(R, C)>, rs: seq<R>, cs: seq<C>)
    requires rs == [] || cs == []
    ensures Matches(pairs, rs, cs) == 0
  {
    if pairs != [] {
      MatchesNone(pairs[1..], rs, cs);
    }
  }

  /** When every record's keys are among the pivot's keys, all of them are counted. */
  lemma {:induction false} MatchesAll<R, C>(pairs: seq<(R, C)>, rs: seq<R>, cs: seq<C>)
    requires forall k :: 0 <= k < |pairs| ==> pairs[k].0 in rs && pairs[k].1 in cs
    ensures Matches(pairs, rs, cs) == |pairs|
  {
    if pairs != [] {
      assert forall k :: 0 <= k < |pairs[1..]| ==> pairs[1..][k] == pairs[k + 1];
      MatchesAll(pairs[1..], rs, cs);
    }
  }

  /** A column key that no record carries counts 0 in every row. */
  lemma {:induction false} MatchesAbsent<R, C>(pairs: seq<(R, C)>, rs: seq<R>, c: C)
    requires forall k :: 0 <= k < |pairs| ==> pairs[k].1 != c
    ensures Matches(pairs, rs, [c]) == 0
  {
    if pairs != [] {
      assert forall k :: 0 <= k < |pairs[1..]| ==> pairs[1..][k] == pairs[k + 1];
      MatchesAbsent(pairs[1..], rs, c);
    }
  }

  /** One row of the grid: the count of `r` with each column key. */
  function CountRow<R(==), C(==)>(pairs: seq<(R, C)>, r: R, cks: seq<C>): (cells: seq<int>)
    ensures |cells| == |cks|
    ensures forall j :: 0 <= j < |cks| ==> cells[j] == Count(pairs, r, cks[j])
  {
    if cks == [] then []
    else [Count(pairs, r, cks[0])] + CountRow(pairs, r, cks[1..])
  }

  /** A row of counts adds up to the records of that row key under any of the columns. */
  lemma {:induction false} CountRowSum<R, C>(pairs: seq<(R, C)>, r: R, cks: seq<C>)
    requires Distinct(cks)
    ensures Sum(CountRow(pairs, r, cks)) == Matches(pairs, [r], cks)
  {
    if cks == [] {
      MatchesNone(pairs, [r], cks);
    } else {
      var rest := cks[1..];
      assert cks == [cks[0]] + rest;
      assert Distinct(rest) by {
        forall i, j | 0 <= i < j < |rest| ensures rest[i] != rest[j] {
          assert rest[i] == cks[i + 1] && rest[j] == cks[j + 1];
        }
      }
      assert cks[0] !in rest by {
        forall k | 0 <= k < |rest| ensures rest[k] != cks[0] { assert rest[k] == cks[k + 1]; }
      }
      var cells := CountRow(pairs, r, cks);
      assert cells[1..] == CountRow(pairs, r, rest);
      assert Sum(cells) == Count(pairs, r, cks[0]) + Sum(CountRow(pairs, r, rest));
      CountRowSum(pairs, r, rest);
      MatchesSplitCols(pairs, [r], cks[0], rest);
    }
  }

  function ColLabels<C>(cks: seq<C>): (labels: seq<ColLabel<C>>)
    ensures |labels| == |cks|
    ensures forall j :: 0 <= j < |cks| ==> labels[j] == Col(cks[j])
    ensures TotalCol !in labels
    ensures Distinct(cks) ==> Distinct(labels)
  {
    seq(|cks|, j requires 0 <= j < |cks| => Col(cks[j]))
  }

  /** `pivot_table(index=row, columns=col, fill_value=0)` over the full cross
      product `rks × cks`: one row per row key, one column per column key. */
  function CountGrid<R(==), C(==)>(pairs: seq<(R, C)>, rks: seq<R>, cks: seq<C>): (t: Table<R, C>)
    requires Distinct(cks)
    ensures WellFormed(t)
    ensures t.cols == ColLabels(cks) && |t.rows| == |rks|
    ensures forall i :: 0 <= i < |rks| ==> t.rows[i] == Row(RowKey(rks[i]), CountRow(pairs, rks[i], cks))
  {
    Table(ColLabels(cks), seq(|rks|, i requires 0 <= i < |rks| => Row(RowKey(rks[i]), CountRow(pairs, rks[i], cks))))
  }

  /** `df[row].unique()` over the counted records: each row key once. */
  function RowKeys<R(==), C>(pairs: seq<(R, C)>): (rks: seq<R>)
    ensures Distinct(rks)
    ensures forall k :: 0 <= k < |pairs| ==> pairs[k].0 in rks
    ensures forall i :: 0 <= i < |rks| ==> exists k :: 0 <= k < |pairs| && pairs[k].0 == rks[i]
  {
    var column := seq(|pairs|, k requires 0 <= k < |pairs| => pairs[k].0);
    var rks := Unique(column);
    assert forall k :: 0 <= k < |pairs| ==> column[k] == pairs[k].0;
    assert forall i :: 0 <= i < |rks| ==> exists k :: 0 <= k < |pairs| && pairs[k].0 == rks[i] by {
      forall i | 0 <= i < |rks| ensures exists k :: 0 <= k < |pairs| && pairs[k].0 == rks[i] {
        var k :| 0 <= k < |column| && column[k] == rks[i];
      }
    }
    rks
  }

  /** `df[col].unique()` over the counted records: each column key once. */
  function ColKeys<R, C(==)>(pairs: seq<(R, C)>): (cks: seq<C>)
    ensures Distinct(cks)
    ensures forall k :: 0 <= k < |pairs| ==> pairs[k].1 in cks
    ensures forall j :: 0 <= j < |cks| ==> exists k :: 0 <= k < |pairs| && pairs[k].1 == cks[j]
  {
    var column := seq(|pairs|, k requires 0 <= k < |pairs| => pairs[k].1);
    var cks := Unique(column);
    assert forall k :: 0 <= k < |pairs| ==> column[k] == pairs[k].1;
    assert forall j :: 0 <= j < |cks| ==> exists k :: 0 <= k < |pairs| && pairs[k].1 == cks[j] by {
      forall j | 0 <= j < |cks| ensures exists k :: 0 <= k < |pairs| && pairs[k].1 == cks[j] {
        var k :| 0 <= k < |column| && column[k] == cks[j];
      }
    }
    cks
  }

  /** The row keys of string-keyed records in ascending order, as
      `groupby` and `pivot_table` sort their index. */
  function SortedRowKeys<C>(pairs: seq<(string, C)>): (rks: seq<string>)
    ensures Distinct(rks)
    ensures forall k :: 0 <= k < |pairs| ==> pairs[k].0 in rks
    ensures forall i :: 0 <= i < |rks| ==> exists k :: 0 <= k < |pairs| && pairs[k].0 == rks[i]
  {
    var keys := RowKeys(pairs);
    var rks := SortedDistinct(keys);
    StrictlyAscendingIsDistinct(rks);
    forall i | 0 <= i < |rks| ensures exists k :: 0 <= k < |pairs| && pairs[k].0 == rks[i] {
      assert rks[i] in rks;
      var j :| 0 <= j < |keys| && keys[j] == rks[i];
    }
    rks
  }

  /** The column keys of string-keyed records in ascending order, as
      `pivot_table` sorts its columns. */
  function SortedColKeys<R>(pairs: seq<(R, string)>): (cks: seq<string>)
    ensures Distinct(cks)
    ensures forall k :: 0 <= k < |pairs| ==> pairs[k].1 in cks
    ensures forall j :: 0 <= j < |cks| ==> exists k :: 0 <= k < |pairs| && pairs[k].1 == cks[j]
  {
    var keys := ColKeys(pairs);
    var cks := SortedDistinct(keys);
    StrictlyAscendingIsDistinct(cks);
    forall j | 0 <= j < |cks| ensures exists k :: 0 <= k < |pairs| && pairs[k].1 == cks[j] {
      assert cks[j] in cks;
      var m :| 0 <= m < |keys| && keys[m] == cks[j];
    }
    cks
  }

  /** The sorted keys are in ascending order. */
  lemma SortedKeysAscending<R, C>(rowPairs: seq<(string, C)>, colPairs: seq<(R, string)>)
    ensures StrictlyAscending(SortedRowKeys(rowPairs))
    ensures StrictlyAscending(SortedColKeys(colPairs))
  {
  }

  /** A string is a sorted row key exactly when some record carries it. */
  lemma SortedRowKeysMembers<C>(pairs: seq<(string, C)>, r: string)
    ensures r in SortedRowKeys(pairs) <==> exists k :: 0 <= k < |pairs| && pairs[k].0 == r
  {
    var rks := SortedRowKeys(pairs);
    if r in rks {
      var i :| 0 <= i < |rks| && rks[i] == r;
    }
  }

  /** For records built one per source row, with the row's key as the
      record's row key, the row keys are exactly the keys of the rows. */
  lemma KeysOfRows<T, C>(rows: seq<T>, pairs: seq<(string, C)>, key: T -> Option<string>, a: string)
    requires |pairs| == |rows|
    requires forall k :: 0 <= k < |rows| ==> key(rows[k]) == Some(pairs[k].0)
    ensures a in SortedRowKeys(pairs) <==> exists e :: e in rows && key(e) == Some(a)
  {
    SortedRowKeysMembers(pairs, a);
    if a in SortedRowKeys(pairs) {
      var k :| 0 <= k < |pairs| && pairs[k].0 == a;
      assert rows[k] in rows;
    }
    if e :| e in rows && key(e) == Some(a) {
      var k :| 0 <= k < |rows| && rows[k] == e;
      assert pairs[k].0 == a;
    }
  }

  /** Records carrying column key `c`, whatever their row key. */
  function ColumnCount<R, C(==)>(pairs: seq<(R, C)>, c: C): nat
  {
    if pairs == [] then 0 else (if pairs[0].1 == c then 1 else 0) + ColumnCount(pairs[1..], c)
  }

  /** Records carrying row key `r`, whatever their column key. */
  function RowCount<R(==), C>(pairs: seq<(R, C)>, r: R): nat
  {
    if pairs == [] then 0 else (if pairs[0].0 == r then 1 else 0) + RowCount(pairs[1..], r)
  }

  /** When every record's row key is a pivot row, a column's matches are all
      the records with that column key. */
  lemma {:induction false} MatchesColumn<R, C>(pairs: seq<(R, C)>, rs: seq<R>, c: C)
    requires forall k :: 0 <= k < |pairs| ==> pairs[k].0 in rs
    ensures Matches(pairs, rs, [c]) == ColumnCount(pairs, c)
  {
    if pairs != [] {
      assert forall k :: 0 <= k < |pairs[1..]| ==> pairs[1..][k] == pairs[k + 1];
      MatchesColumn(pairs[1..], rs, c);
    }
  }

  /** A row key that some record carries is counted at least once. */
  lemma {:induction false} RowCountPositive<R, C>(pairs: seq<(R, C)>, k: nat)
    requires k < |pairs|
    ensures RowCount(pairs, pairs[k].0) >= 1
  {
    if k > 0 {
      assert pairs[1..][k - 1] == pairs[k];
      RowCountPositive(pairs[1..], k - 1);
    }
  }

  // ---------------------------------------------------------------------
  // Sums over a column

  /** The cell of column `k`, or 0 when the row is too short. */
  function CellAt<R>(row: Row<R>, k: int): int
  {
    if 0 <= k < |row.cells| then row.cells[k] else 0
  }

  /** `df[col].sum()` over the given rows. */
  function ColSum<R>(rows: seq<Row<R>>, k: int): int
  {
    if rows == [] then 0 else CellAt(rows[0], k) + ColSum(rows[1..], k)
  }

  /** Two row lists whose column `ka` and `kb` agree row by row have equal sums. */
  lemma {:induction false} ColSumPointwise<R>(a: seq<Row<R>>, ka: int, b: seq<Row<R>>, kb: int)
    requires |a| == |b|
    requires forall i :: 0 <= i < |a| ==> CellAt(a[i], ka) == CellAt(b[i], kb)
    ensures ColSum(a, ka) == ColSum(b, kb)
  {
    if a != [] {
      assert forall i :: 0 <= i < |a[1..]| ==> a[1..][i] == a[i + 1] && b[1..][i] == b[i + 1];
      ColSumPointwise(a[1..], ka, b[1..], kb);
    }
  }

  lemma {:induction false} ColSumInsert<R>(x: Row<R>, s: seq<Row<R>>, score: Row<R> -> int, k: int)
    requires NonIncreasing(s, score)
    ensures ColSum(InsertDescending(x, s, score), k) == CellAt(x, k) + ColSum(s, k)
  {
    if s != [] && score(x) < score(s[0]) {
      ColSumInsert(x, s[1..], score, k);
      var r := InsertDescending(x, s, score);
      assert r[1..] == InsertDescending(x, s[1..], score);
    } else if s != [] {
      assert ([x] + s)[1..] == s;
    }
  }

  /** Ranking rows does not change any column's sum. */
  lemma {:induction false} ColSumRank<R>(s: seq<Row<R>>, score: Row<R> -> int, k: int)
    ensures ColSum(RankDescending(s, score), k) == ColSum(s, k)
  {
    if s != [] {
      ColSumRank(s[1..], score, k);
      ColSumInsert(s[0], RankDescending(s[1..], score), score, k);
    }
  }

  // ---------------------------------------------------------------------
  // The Total column, the ranking, the column move and the Total row

  /** `df['Total'] = df.sum(axis=1)`. */
  function WithTotalColumn<R, C(==)>(t: Table<R, C>): (u: Table<R, C>)
    requires WellFormed(t) && TotalCol !in t.cols
    ensures WellFormed(u)
    ensures u.cols == t.cols + [TotalCol] && |u.rows| == |t.rows|
    ensures forall i :: 0 <= i < |t.rows| ==>
      u.rows[i].name == t.rows[i].name && u.rows[i].cells == t.rows[i].cells + [Sum(t.rows[i].cells)]
  {
    Table(t.cols + [TotalCol],
          seq(|t.rows|, i requires 0 <= i < |t.rows| => Row(t.rows[i].name, t.rows[i].cells + [Sum(t.rows[i].cells)])))
  }

  function IndexOf<T(==)>(s: seq<T>, x: T): (k: nat)
    requires x in s
    ensures k < |s| && s[k] == x && x !in s[..k]
  {
    if s[0] == x then 0 else 1 + IndexOf(s[1..], x)
  }

  lemma IndexOfDistinct<T>(s: seq<T>, k: nat)
    requires Distinct(s) && k < |s|
    ensures IndexOf(s, s[k]) == k
  {
  }

  function TotalIndex<R, C(==)>(t: Table<R, C>): nat
    requires TotalCol in t.cols
  {
    IndexOf(t.cols, TotalCol)
  }

  /** The score that ranks rows by their cell in column `k`. */
  function ByColumn<R>(k: int): Row<R> -> int
  {
    (row: Row<R>) => CellAt(row, k)
  }

  /** `df.sort_values('Total', ascending=False)`. */
  function SortByTotal<R, C(==)>(t: Table<R, C>): (u: Table<R, C>)
    requires WellFormed(t) && TotalCol in t.cols
    ensures WellFormed(u) && u.cols == t.cols
    ensures u.rows == RankDescending(t.rows, ByColumn(TotalIndex(t)))
    ensures |u.rows| == |t.rows| && multiset(u.rows) == multiset(t.rows)
    ensures forall i, j :: 0 <= i < j < |u.rows| ==>
      CellAt(u.rows[i], TotalIndex(t)) >= CellAt(u.rows[j], TotalIndex(t))
  {
    var rows := RankDescending(t.rows, ByColumn(TotalIndex(t)));
    assert |multiset(rows)| == |multiset(t.rows)|;
    assert forall i :: 0 <= i < |rows| ==> rows[i] in multiset(t.rows);
    Table(t.cols, rows)
  }

  function MoveFirst<T>(s: seq<T>, k: nat): (r: seq<T>)
    requires k < |s|
    ensures |r| == |s| && r[0] == s[k]
    ensures forall j :: 0 <= j < k ==> r[j + 1] == s[j]
    ensures forall j :: k < j < |s| ==> r[j] == s[j]
  {
    [s[k]] + s[..k] + s[k + 1..]
  }

  lemma MoveFirstPermutes<T>(s: seq<T>, k: nat)
    requires k < |s|
    ensures multiset(MoveFirst(s, k)) == multiset(s)
    ensures Distinct(s) ==> Distinct(MoveFirst(s, k))
  {
    assert s == s[..k] + [s[k]] + s[k + 1..];
    assert multiset(MoveFirst(s, k)) == multiset([s[k]]) + multiset(s[..k]) + multiset(s[k + 1..]);
    if Distinct(s) {
      MoveFirstDistinct(s, k);
    }
  }

  lemma MoveFirstDistinct<T>(s: seq<T>, k: nat)
    requires k < |s| && Distinct(s)
    ensures Distinct(MoveFirst(s, k))
  {
    var r := MoveFirst(s, k);
    forall i, j | 0 <= i < j < |r| ensures r[i] != r[j] {
      MoveFirstAt(s, k, i);
      MoveFirstAt(s, k, j);
    }
  }

  lemma MoveLastFirst<T>(s: seq<T>, x: T)
    ensures MoveFirst(s + [x], |s|) == [x] + s
  {
    assert (s + [x])[..|s|] == s;
  }

  /** `df[['Total'] + [c for c in df.columns if c != 'Total']]`. */
  function MoveTotalFirst<R, C(==)>(t: Table<R, C>): (u: Table<R, C>)
    requires WellFormed(t) && TotalCol in t.cols
    ensures WellFormed(u) && |u.rows| == |t.rows| && |u.cols| == |t.cols|
    ensures u.cols[0] == TotalCol && multiset(u.cols) == multiset(t.cols)
    ensures u.cols == MoveFirst(t.cols, TotalIndex(t))
    ensures forall i :: 0 <= i < |t.rows| ==>
      u.rows[i].name == t.rows[i].name && u.rows[i].cells == MoveFirst(t.rows[i].cells, TotalIndex(t))
  {
    var k := TotalIndex(t);
    MoveFirstPermutes(t.cols, k);
    Table(MoveFirst(t.cols, k),
          seq(|t.rows|, i requires 0 <= i < |t.rows| => Row(t.rows[i].name, MoveFirst(t.rows[i].cells, k))))
  }

  /** `df.loc['Total'] = df.sum(numeric_only=True)`. */
  function WithTotalRow<R, C(==)>(t: Table<R, C>): (u: Table<R, C>)
    requires WellFormed(t)
    ensures WellFormed(u) && u.cols == t.cols && |u.rows| == |t.rows| + 1
    ensures u.rows[..|t.rows|] == t.rows
    ensures u.rows[|t.rows|].name == TotalRow
    ensures forall j :: 0 <= j < |t.cols| ==> u.rows[|t.rows|].cells[j] == ColSum(t.rows, j)
  {
    Table(t.cols, t.rows + [Row(TotalRow, seq(|t.cols|, j => ColSum(t.rows, j)))])
  }

  // ---------------------------------------------------------------------
  // The tables the dashboards show

  /** Rank the rows by the `Total` column, then move that column first. */
  function Ranked<R, C(==)>(w: Table<R, C>): (t: Table<R, C>)
    requires WellFormed(w) && TotalCol in w.cols
    ensures WellFormed(t) && |t.rows| == |w.rows| && t.cols == MoveFirst(w.cols, TotalIndex(w))
  {
    MoveTotalFirst(SortByTotal(w))
  }

  /** Every ranked row is some input row with its `Total` cell moved first. */
  lemma RankedRowFrom<R, C>(w: Table<R, C>, i: nat)
    requires WellFormed(w) && TotalCol in w.cols && i < |w.rows|
    ensures exists m :: (0 <= m < |w.rows| && Ranked(w).rows[i].name == w.rows[m].name
      && Ranked(w).rows[i].cells == MoveFirst(w.rows[m].cells, TotalIndex(w)))
  {
    var s := SortByTotal(w);
    assert s.rows[i] in multiset(w.rows);
    var m :| 0 <= m < |w.rows| && w.rows[m] == s.rows[i];
    assert Ranked(w).rows[i] == MoveTotalFirst(s).rows[i];
  }

  /** Every input row appears among the ranked rows. */
  lemma RankedRowTo<R, C>(w: Table<R, C>, m: nat)
    requires WellFormed(w) && TotalCol in w.cols && m < |w.rows|
    ensures exists i :: 0 <= i < |w.rows| && Ranked(w).rows[i].name == w.rows[m].name
  {
    var s := SortByTotal(w);
    assert w.rows[m] in multiset(s.rows);
    var i :| 0 <= i < |s.rows| && s.rows[i] == w.rows[m];
    assert Ranked(w).rows[i].name == MoveTotalFirst(s).rows[i].name;
  }

  /** The ranked rows' first cells (their totals) do not increase. */
  lemma RankedOrder<R, C>(w: Table<R, C>)
    requires WellFormed(w) && TotalCol in w.cols
    ensures forall i, j :: 0 <= i < j < |w.rows| ==> Ranked(w).rows[i].cells[0] >= Ranked(w).rows[j].cells[0]
  {
    var s := SortByTotal(w);
    var k := TotalIndex(w);
    forall i, j | 0 <= i < j < |w.rows|
      ensures Ranked(w).rows[i].cells[0] >= Ranked(w).rows[j].cells[0]
    {
      assert CellAt(s.rows[i], k) >= CellAt(s.rows[j], k);
    }
  }

  /** Counts, `Total` column ranked descending and moved first, no `Total` row
      (the user × agent tables). */
  function RankedTable<R(==), C(==)>(pairs: seq<(R, C)>, rks: seq<R>, cks: seq<C>): Table<R, C>
    requires Distinct(cks)
  {
    Ranked(WithTotalColumn(CountGrid(pairs, rks, cks)))
  }

  /** The same with the `Total` row added (the week and day tables). */
  function RankedTableWithTotals<R(==), C(==)>(pairs: seq<(R, C)>, rks: seq<R>, cks: seq<C>): Table<R, C>
    requires Distinct(cks)
  {
    WithTotalRow(RankedTable(pairs, rks, cks))
  }

  /** A grid row after the `Total` column is appended. */
  function GridRow<R(==), C(==)>(pairs: seq<(R, C)>, r: R, cks: seq<C>): Row<R>
  {
    var counts := CountRow(pairs, r, cks);
    Row(RowKey(r), counts + [Sum(counts)])
  }

  function GridRows<R(==), C(==)>(pairs: seq<(R, C)>, rks: seq<R>, cks: seq<C>): (rows: seq<Row<R>>)
    ensures |rows| == |rks|
    ensures forall i :: 0 <= i < |rks| ==> rows[i] == GridRow(pairs, rks[i], cks)
  {
    if rks == [] then [] else [GridRow(pairs, rks[0], cks)] + GridRows(pairs, rks[1..], cks)
  }

  lemma TotaledGrid<R, C>(pairs: seq<(R, C)>, rks: seq<R>, cks: seq<C>)
    requires Distinct(cks)
    ensures var w := WithTotalColumn(CountGrid(pairs, rks, cks));
      && w.cols == ColLabels(cks) + [TotalCol]
      && TotalIndex(w) == |cks|
      && w.rows == GridRows(pairs, rks, cks)
  {
  }

  /** A row of a ranked table: a row key, then `Total` = the sum of its
      counts, then its count under every column key. */
  predicate IsRankedRow<R(==), C(==)>(pairs: seq<(R, C)>, rks: seq<R>, cks: seq<C>, row: Row<R>)
  {
    && row.name.RowKey? && row.name.key in rks
    && row.cells == [Sum(CountRow(pairs, row.name.key, cks))] + CountRow(pairs, row.name.key, cks)
  }

  /** A ranked table over row keys `rks` and column keys `cks`: `Total` then
      the column keys, a ranked row for every row key and no other row, rows
      by non-increasing `Total`. */
  predicate IsRankedTable<R(==), C(==)>(pairs: seq<(R, C)>, rks: seq<R>, cks: seq<C>, t: Table<R, C>)
  {
    && WellFormed(t)
    && t.cols == [TotalCol] + ColLabels(cks)
    && |t.rows| == |rks|
    && (forall i :: 0 <= i < |t.rows| ==> IsRankedRow(pairs, rks, cks, t.rows[i]))
    && (forall r :: r in rks ==> exists i :: 0 <= i < |t.rows| && t.rows[i].name == RowKey(r))
    && (forall i, j :: 0 <= i < j < |t.rows| ==> t.rows[i].cells[0] >= t.rows[j].cells[0])
  }

  /** Ranking a totalled grid yields exactly the ranked rows of its row keys. */
  lemma RankedGridRows<R, C>(pairs: seq<(R, C)>, rks: seq<R>, cks: seq<C>, w: Table<R, C>)
    requires WellFormed(w) && TotalCol in w.cols && TotalIndex(w) == |cks|
    requires w.rows == GridRows(pairs, rks, cks)
    ensures forall i :: 0 <= i < |w.rows| ==> IsRankedRow(pairs, rks, cks, Ranked(w).rows[i])
    ensures forall r :: r in rks ==> exists i :: 0 <= i < |w.rows| && Ranked(w).rows[i].name == RowKey(r)
  {
    var t := Ranked(w);
    forall i | 0 <= i < |w.rows| ensures IsRankedRow(pairs, rks, cks, t.rows[i]) {
      RankedRowFrom(w, i);
      var m :| 0 <= m < |w.rows| && t.rows[i].name == w.rows[m].name
        && t.rows[i].cells == MoveFirst(w.rows[m].cells, |cks|);
      var counts := CountRow(pairs, rks[m], cks);
      MoveLastFirst(counts, Sum(counts));
    }
    forall r | r in rks ensures exists i :: 0 <= i < |w.rows| && t.rows[i].name == RowKey(r) {
      var m :| 0 <= m < |rks| && rks[m] == r;
      RankedRowTo(w, m);
    }
  }

  /** The ranked table has the `Total` column first and then one column per
      column key; one row per row key, holding its counts (0 where absent)
      with `Total` equal to their sum; rows in non-increasing `Total` order. */
  lemma RankedTableRows<R, C>(pairs: seq<(R, C)>, rks: seq<R>, cks: seq<C>)
    requires Distinct(cks)
    ensures var t := RankedTable(pairs, rks, cks);
      && WellFormed(t)
      && t.cols == [TotalCol] + ColLabels(cks)
      && |t.rows| == |rks|
      && (forall i :: 0 <= i < |t.rows| ==> IsRankedRow(pairs, rks, cks, t.rows[i]))
      && (forall r :: r in rks ==> exists i :: 0 <= i < |t.rows| && t.rows[i].name == RowKey(r))
      && (forall i, j :: 0 <= i < j < |t.rows| ==> t.rows[i].cells[0] >= t.rows[j].cells[0])
  {
    var w := WithTotalColumn(CountGrid(pairs, rks, cks));
    TotaledGrid(pairs, rks, cks);
    MoveLastFirst(ColLabels(cks), TotalCol);
    RankedGridRows(pairs, rks, cks, w);
    RankedOrder(w);
  }

  lemma {:induction false} GridTotalSum<R, C>(pairs: seq<(R, C)>, rks: seq<R>, cks: seq<C>)
    requires Distinct(rks) && Distinct(cks)
    ensures ColSum(GridRows(pairs, rks, cks), |cks|) == Matches(pairs, rks, cks)
  {
    if rks == [] {
      MatchesNone(pairs, rks, cks);
    } else {
      var rest := rks[1..];
      assert rks == [rks[0]] + rest;
      assert Distinct(rest) by {
        forall i, j | 0 <= i < j < |rest| ensures rest[i] != rest[j] {
          assert rest[i] == rks[i + 1] && rest[j] == rks[j + 1];
        }
      }
      assert rks[0] !in rest by {
        forall q | 0 <= q < |rest| ensures rest[q] != rks[0] { assert rest[q] == rks[q + 1]; }
      }
      var rows := GridRows(pairs, rks, cks);
      assert rows[1..] == GridRows(pairs, rest, cks);
      var counts := CountRow(pairs, rks[0], cks);
      assert CellAt(rows[0], |cks|) == Sum(counts);
      GridTotalSum(pairs, rest, cks);
      CountRowSum(pairs, rks[0], cks);
      MatchesSplitRows(pairs, rks[0], rest, cks);
    }
  }

  lemma {:induction false} GridColumnSum<R, C>(pairs: seq<(R, C)>, rks: seq<R>, cks: seq<C>, j: nat)
    requires Distinct(rks) && j < |cks|
    ensures ColSum(GridRows(pairs, rks, cks), j) == Matches(pairs, rks, [cks[j]])
  {
    if rks == [] {
      MatchesNone(pairs, rks, [cks[j]]);
    } else {
      var rest := rks[1..];
      assert rks == [rks[0]] + rest;
      assert Distinct(rest) by {
        forall i, i' | 0 <= i < i' < |rest| ensures rest[i] != rest[i'] {
          assert rest[i] == rks[i + 1] && rest[i'] == rks[i' + 1];
        }
      }
      assert rks[0] !in rest by {
        forall q | 0 <= q < |rest| ensures rest[q] != rks[0] { assert rest[q] == rks[q + 1]; }
      }
      var rows := GridRows(pairs, rks, cks);
      assert rows[1..] == GridRows(pairs, rest, cks);
      assert CellAt(rows[0], j) == Count(pairs, rks[0], cks[j]);
      GridColumnSum(pairs, rest, cks, j);
      MatchesSplitRows(pairs, rks[0], rest, [cks[j]]);
    }
  }

  /** Where column `c` of `MoveFirst(_, k)` came from. */
  function MovedFrom(c: nat, k: nat): nat
  {
    if c == 0 then k else if c <= k then c - 1 else c
  }

  /** Ranking and moving the `Total` column keep every column's sum. */
  lemma RankedColSum<R, C>(w: Table<R, C>, c: nat)
    requires WellFormed(w) && TotalCol in w.cols && c < |w.cols|
    ensures ColSum(Ranked(w).rows, c) == ColSum(w.rows, MovedFrom(c, TotalIndex(w)))
  {
    var k := TotalIndex(w);
    var s := SortByTotal(w);
    var t := MoveTotalFirst(s);
    assert t == Ranked(w);
    forall i | 0 <= i < |t.rows| ensures CellAt(t.rows[i], c) == CellAt(s.rows[i], MovedFrom(c, k)) {
      MoveFirstAt(s.rows[i].cells, k, c);
    }
    ColSumPointwise(t.rows, c, s.rows, MovedFrom(c, k));
    ColSumRank(w.rows, ByColumn(k), MovedFrom(c, k));
  }

  /** Position `c` after moving position `k` first holds the old position `MovedFrom(c, k)`. */
  lemma MoveFirstAt<T>(s: seq<T>, k: nat, c: nat)
    requires k < |s| && c < |s|
    ensures MovedFrom(c, k) < |s| && MoveFirst(s, k)[c] == s[MovedFrom(c, k)]
  {
    if 0 < c <= k {
      assert MoveFirst(s, k)[(c - 1) + 1] == s[c - 1];
    }
  }

  /** Column sums of the ranked table: the `Total` column adds up to every
      record with a pivot row key and column key, column `j + 1` to those
      with column key `cks[j]`. */
  lemma RankedColumnSums<R, C>(pairs: seq<(R, C)>, rks: seq<R>, cks: seq<C>)
    requires Distinct(rks) && Distinct(cks)
    ensures ColSum(RankedTable(pairs, rks, cks).rows, 0) == Matches(pairs, rks, cks)
    ensures forall j :: 0 <= j < |cks| ==> ColSum(RankedTable(pairs, rks, cks).rows, j + 1) == Matches(pairs, rks, [cks[j]])
  {
    var w := WithTotalColumn(CountGrid(pairs, rks, cks));
    TotaledGrid(pairs, rks, cks);
    RankedColSum(w, 0);
    GridTotalSum(pairs, rks, cks);
    forall j | 0 <= j < |cks| ensures ColSum(RankedTable(pairs, rks, cks).rows, j + 1) == Matches(pairs, rks, [cks[j]]) {
      RankedKeyColumnSum(pairs, rks, cks, j);
    }
  }

  lemma RankedKeyColumnSum<R, C>(pairs: seq<(R, C)>, rks: seq<R>, cks: seq<C>, j: nat)
    requires Distinct(rks) && Distinct(cks) && j < |cks|
    ensures ColSum(RankedTable(pairs, rks, cks).rows, j + 1) == Matches(pairs, rks, [cks[j]])
  {
    var w := WithTotalColumn(CountGrid(pairs, rks, cks));
    TotaledGrid(pairs, rks, cks);
    RankedColSum(w, j + 1);
    GridColumnSum(pairs, rks, cks, j);
  }

  /** Every record is counted exactly once in the ranked table without a
      `Total` row: when all records' keys are pivot keys, its `Total` column
      adds up to the number of records. */
  lemma CompleteRankedFacts<R, C>(pairs: seq<(R, C)>, rks: seq<R>, cks: seq<C>)
    requires Distinct(rks) && Distinct(cks)
    requires forall k :: 0 <= k < |pairs| ==> pairs[k].0 in rks && pairs[k].1 in cks
    ensures var t := RankedTable(pairs, rks, cks);
      && WellFormed(t)
      && t.cols == [TotalCol] + ColLabels(cks)
      && |t.rows| == |rks|
      && (forall i :: 0 <= i < |t.rows| ==> IsRankedRow(pairs, rks, cks, t.rows[i]))
      && (forall r :: r in rks ==> exists i :: 0 <= i < |t.rows| && t.rows[i].name == RowKey(r))
      && (forall i, j :: 0 <= i < j < |t.rows| ==> t.rows[i].cells[0] >= t.rows[j].cells[0])
      && ColSum(t.rows, 0) == |pairs|
  {
    RankedTableRows(pairs, rks, cks);
    RankedColumnSums(pairs, rks, cks);
    MatchesAll(pairs, rks, cks);
  }

  /** The `Total` row holds each column's sum: under a column key, the
      records of any row key with that column key; under `Total`, every
      record whose row key and column key are both pivot keys. */
  lemma GrandTotal<R, C>(pairs: seq<(R, C)>, rks: seq<R>, cks: seq<C>)
    requires Distinct(rks) && Distinct(cks)
    ensures var t := RankedTableWithTotals(pairs, rks, cks);
      && |t.rows| == |rks| + 1
      && t.rows[|rks|].name == TotalRow
      && t.rows[|rks|].cells[0] == Matches(pairs, rks, cks)
      && forall j :: 0 <= j < |cks| ==> t.rows[|rks|].cells[j + 1] == Matches(pairs, rks, [cks[j]])
  {
    RankedColumnSums(pairs, rks, cks);
    RankedTableRows(pairs, rks, cks);
  }

  /** Every record is counted exactly once: when all records' keys are pivot
      keys, the ranked table with totals has a ranked row per row key and a
      `Total` row holding the number of records, then the number of records
      under each column key. */
  lemma CompleteTableFacts<R, C>(pairs: seq<(R, C)>, rks: seq<R>, cks: seq<C>)
    requires Distinct(rks) && Distinct(cks)
    requires forall k :: 0 <= k < |pairs| ==> pairs[k].0 in rks && pairs[k].1 in cks
    ensures var t := RankedTableWithTotals(pairs, rks, cks);
      && WellFormed(t)
      && t.cols == [TotalCol] + ColLabels(cks)
      && |t.rows| == |rks| + 1
      && (forall i :: 0 <= i < |rks| ==> IsRankedRow(pairs, rks, cks, t.rows[i]))
      && (forall r :: r in rks ==> exists i :: 0 <= i < |rks| && t.rows[i].name == RowKey(r))
      && (forall i, j :: 0 <= i < j < |rks| ==> t.rows[i].cells[0] >= t.rows[j].cells[0])
      && t.rows[|rks|].name == TotalRow
      && t.rows[|rks|].cells[0] == |pairs|
      && forall j :: 0 <= j < |cks| ==> t.rows[|rks|].cells[j + 1] == ColumnCount(pairs, cks[j])
  {
    var t := RankedTableWithTotals(pairs, rks, cks);
    var u := RankedTable(pairs, rks, cks);
    RankedTableRows(pairs, rks, cks);
    RankedTotalRow(pairs, rks, cks);
    forall i | 0 <= i < |rks| ensures t.rows[i] == u.rows[i] {
      assert t.rows[..|u.rows|][i] == t.rows[i];
    }
  }

  /** The `Total` row of a ranked table whose keys cover every record: the
      number of records, then the number under each column key. */
  lemma RankedTotalRow<R, C>(pairs: seq<(R, C)>, rks: seq<R>, cks: seq<C>)
    requires Distinct(rks) && Distinct(cks)
    requires forall k :: 0 <= k < |pairs| ==> pairs[k].0 in rks && pairs[k].1 in cks
    ensures var t := RankedTableWithTotals(pairs, rks, cks);
      && WellFormed(t)
      && |t.rows| == |rks| + 1
      && t.rows[|rks|].name == TotalRow
      && t.rows[|rks|].cells[0] == |pairs|
      && forall j :: 0 <= j < |cks| ==> t.rows[|rks|].cells[j + 1] == ColumnCount(pairs, cks[j])
  {
    var t := RankedTableWithTotals(pairs, rks, cks);
    RankedTableRows(pairs, rks, cks);
    GrandTotal(pairs, rks, cks);
    MatchesAll(pairs, rks, cks);
    forall j | 0 <= j < |cks| ensures t.rows[|rks|].cells[j + 1] == ColumnCount(pairs, cks[j]) {
      MatchesColumn(pairs, rks, cks[j]);
    }
  }

  /** The unranked table with both totals (the CLSA page's layout): the
      column keys in order, then `Total`; one row per row key with its counts
      and their sum; then the `Total` row with the number of records under
      each column key and, last, the number of all records. */
  lemma PlainTableFacts<R, C>(pairs: seq<(R, C)>, rks: seq<R>, cks: seq<C>)
    requires Distinct(rks) && Distinct(cks)
    requires forall k :: 0 <= k < |pairs| ==> pairs[k].0 in rks && pairs[k].1 in cks
    ensures var t := WithTotalRow(WithTotalColumn(CountGrid(pairs, rks, cks)));
      && WellFormed(t)
      && t.cols == ColLabels(cks) + [TotalCol]
      && |t.rows| == |rks| + 1
      && (forall i :: 0 <= i < |rks| ==> t.rows[i] == GridRow(pairs, rks[i], cks))
      && t.rows[|rks|].name == TotalRow
      && t.rows[|rks|].cells[|cks|] == |pairs|
      && forall j :: 0 <= j < |cks| ==> t.rows[|rks|].cells[j] == ColumnCount(pairs, cks[j])
  {
    var w := WithTotalColumn(CountGrid(pairs, rks, cks));
    var t := WithTotalRow(w);
    TotaledGrid(pairs, rks, cks);
    assert forall i :: 0 <= i < |rks| ==> t.rows[i] == w.rows[i];
    GridTotalSum(pairs, rks, cks);
    MatchesAll(pairs, rks, cks);
    forall j | 0 <= j < |cks| ensures t.rows[|rks|].cells[j] == ColumnCount(pairs, cks[j]) {
      GridColumnSum(pairs, rks, cks, j);
      MatchesColumn(pairs, rks, cks[j]);
    }
  }
}
