/** The pivot tables as the scripts build them: a data frame changed in
    place, step by step (`df['Total'] = ...`, `df.loc['Total'] = ...`,
    `pivot_df[w] = 0`, `pivot_df = pivot_df[ordered_cols]`). Each step is
    proved against the table function of module Pivot. */
module PivotFrame {
  import opened Common
  import opened Pivot

  lemma {:induction false} ColSumAppend<R>(rows: seq<Row<R>>, row: Row<R>, k: int)
    ensures ColSum(rows + [row], k) == ColSum(rows, k) + CellAt(row, k)
  {
    if rows != [] {
      assert (rows + [row])[1..] == rows[1..] + [row];
      ColSumAppend(rows[1..], row, k);
    }
  }

  /** `series.sum()` by a running total. */
  method SumCells(cells: seq<int>) returns (total: int)
    ensures total == Sum(cells)
  {
    total := 0;
    for i := 0 to |cells|
      invariant total == Sum(cells[..i])
    {
      assert cells[..i + 1] == cells[..i] + [cells[i]];
      SumAppend(cells[..i], cells[i]);
      total := total + cells[i];
    }
    assert cells[..|cells|] == cells;
  }

  /** One column's sum by a running total over the rows. */
  method SumColumn<R>(rows: seq<Row<R>>, k: int) returns (total: int)
    ensures total == ColSum(rows, k)
  {
    total := 0;
    for i := 0 to |rows|
      invariant total == ColSum(rows[..i], k)
    {
      assert rows[..i + 1] == rows[..i] + [rows[i]];
      ColSumAppend(rows[..i], rows[i], k);
      total := total + CellAt(rows[i], k);
    }
    assert rows[..|rows|] == rows;
  }

  // ---------------------------------------------------------------------
  // The CLSA page's column completion

  /** `pivot_df[c] = 0`: a new column of zeros at the end. */
  function WithZeroColumn<R, C(==)>(t: Table<R, C>, c: C): (u: Table<R, C>)
    requires WellFormed(t) && Col(c) !in t.cols
    ensures WellFormed(u) && u.cols == t.cols + [Col(c)] && |u.rows| == |t.rows|
    ensures forall i :: 0 <= i < |t.rows| ==> u.rows[i].name == t.rows[i].name && u.rows[i].cells == t.rows[i].cells + [0]
  {
    Table(t.cols + [Col(c)], seq(|t.rows|, i requires 0 <= i < |t.rows| => Row(t.rows[i].name, t.rows[i].cells + [0])))
  }

  /** `for w in ordered: if w not in df.columns: df[w] = 0`. */
  function WithMissingColumns<R, C(==)>(t: Table<R, C>, ordered: seq<C>): (u: Table<R, C>)
    requires WellFormed(t)
    ensures WellFormed(u) && |u.rows| == |t.rows|
    ensures forall c :: c in ordered ==> Col(c) in u.cols
    ensures forall l :: l in t.cols ==> l in u.cols
    ensures forall l :: l in u.cols ==> l in t.cols || (l.Col? && l.key in ordered)
    ensures TotalCol in u.cols <==> TotalCol in t.cols
    decreases |ordered|
  {
    if ordered == [] then t
    else
      var init, c := ordered[..|ordered| - 1], ordered[|ordered| - 1];
      assert ordered == init + [c];
      var u := WithMissingColumns(t, init);
      if Col(c) in u.cols then u else WithZeroColumn(u, c)
  }

  /** `df[labels]`: the given columns, in the given order. */
  function Reindexed<R, C(==)>(t: Table<R, C>, labels: seq<ColLabel<C>>): (u: Table<R, C>)
    requires WellFormed(t) && Distinct(labels)
    requires forall l :: l in labels ==> l in t.cols
    ensures WellFormed(u) && u.cols == labels && |u.rows| == |t.rows|
    ensures forall i, j :: 0 <= i < |t.rows| && 0 <= j < |labels| ==>
      u.rows[i].name == t.rows[i].name && u.rows[i].cells[j] == t.rows[i].cells[IndexOf(t.cols, labels[j])]
  {
    Table(labels, seq(|t.rows|, i requires 0 <= i < |t.rows| =>
      Row(t.rows[i].name, seq(|labels|, j requires 0 <= j < |labels| => t.rows[i].cells[IndexOf(t.cols, labels[j])]))))
  }

  /** Every cell holds the count of its row key with its column key. */
  predicate HoldsCounts<R(==), C(==)>(t: Table<R, C>, pairs: seq<(R, C)>, rks: seq<R>)
  {
    && WellFormed(t) && |t.rows| == |rks|
    && (forall k :: 0 <= k < |t.cols| ==> t.cols[k].Col?)
    && forall i :: 0 <= i < |t.rows| ==>
         t.rows[i].name == RowKey(rks[i])
         && forall k :: 0 <= k < |t.cols| ==> t.rows[i].cells[k] == Count(pairs, rks[i], t.cols[k].key)
  }

  lemma GridHoldsCounts<R, C>(pairs: seq<(R, C)>, rks: seq<R>, cks: seq<C>)
    requires Distinct(cks)
    ensures HoldsCounts(CountGrid(pairs, rks, cks), pairs, rks)
  {
  }

  /** Adding the missing columns keeps every cell a count, because a column
      key that is missing from the pivot is carried by no record. */
  lemma {:induction false} MissingColumnsHoldCounts<R, C>(t: Table<R, C>, pairs: seq<(R, C)>, rks: seq<R>, ordered: seq<C>)
    requires HoldsCounts(t, pairs, rks)
    requires forall k :: 0 <= k < |pairs| ==> Col(pairs[k].1) in t.cols
    ensures HoldsCounts(WithMissingColumns(t, ordered), pairs, rks)
    decreases |ordered|
  {
    if ordered != [] {
      var init, c := ordered[..|ordered| - 1], ordered[|ordered| - 1];
      assert ordered == init + [c];
      MissingColumnsHoldCounts(t, pairs, rks, init);
      var u := WithMissingColumns(t, init);
      if Col(c) !in u.cols {
        MatchesAbsentAll(pairs, rks, c, t);
        var v := WithZeroColumn(u, c);
        forall i | 0 <= i < |v.rows|
          ensures v.rows[i].name == RowKey(rks[i])
          ensures forall k :: 0 <= k < |v.cols| ==> v.rows[i].cells[k] == Count(pairs, rks[i], v.cols[k].key)
        {
          assert Count(pairs, rks[i], c) == 0;
        }
      }
    }
  }

  lemma MatchesAbsentAll<R, C>(pairs: seq<(R, C)>, rks: seq<R>, c: C, t: Table<R, C>)
    requires forall k :: 0 <= k < |pairs| ==> Col(pairs[k].1) in t.cols
    requires Col(c) !in t.cols
    ensures forall r :: Count(pairs, r, c) == 0
  {
    forall r ensures Count(pairs, r, c) == 0 {
      MatchesAbsent(pairs, [r], c);
    }
  }

  /** Selecting the columns of a counting table in a given order gives the
      count grid over those column keys. */
  lemma ReindexedCounts<R, C>(t: Table<R, C>, pairs: seq<(R, C)>, rks: seq<R>, cks: seq<C>)
    requires HoldsCounts(t, pairs, rks) && Distinct(cks)
    requires forall c :: c in cks ==> Col(c) in t.cols
    ensures Reindexed(t, ColLabels(cks)) == CountGrid(pairs, rks, cks)
  {
    var u := Reindexed(t, ColLabels(cks));
    var g := CountGrid(pairs, rks, cks);
    forall i | 0 <= i < |rks| ensures u.rows[i] == g.rows[i] {
      forall j | 0 <= j < |cks| ensures u.rows[i].cells[j] == g.rows[i].cells[j] {
        var k := IndexOf(t.cols, Col(cks[j]));
        assert t.cols[k].key == cks[j];
      }
    }
  }

  // ---------------------------------------------------------------------
  // The data frame

  /** A pivot table whose columns and rows the scripts reassign in place. */
  class Frame<R(==), C(==)> {
    var cols: seq<ColLabel<C>>
    var rows: seq<Row<R>>

    function Snapshot(): Table<R, C>
      reads this
    {
      Table(cols, rows)
    }

    /** The counts over the cross product of the given keys. */
    constructor FromCounts(pairs: seq<(R, C)>, rks: seq<R>, cks: seq<C>)
      requires Distinct(cks)
      ensures Snapshot() == CountGrid(pairs, rks, cks)
    {
      var g := CountGrid(pairs, rks, cks);
      cols := g.cols;
      rows := g.rows;
    }

    /** `df['Total'] = df.sum(axis=1)`. */
    method AddTotalColumn()
      requires WellFormed(Snapshot()) && TotalCol !in cols
      modifies this
      ensures Snapshot() == WithTotalColumn(old(Snapshot()))
    {
      var rs := rows;
      var target := WithTotalColumn(Snapshot());
      var done: seq<Row<R>> := [];
      for i := 0 to |rs|
        invariant unchanged(this)
        invariant done == target.rows[..i]
      {
        var total := SumCells(rs[i].cells);
        done := done + [Row(rs[i].name, rs[i].cells + [total])];
      }
      assert done == target.rows[..|rs|] == target.rows;
      cols := cols + [TotalCol];
      rows := done;
    }

    /** `df = df.sort_values('Total', ascending=False)`. */
    method SortByTotalDescending()
      requires WellFormed(Snapshot()) && TotalCol in cols
      modifies this
      ensures Snapshot() == SortByTotal(old(Snapshot()))
    {
      rows := RankDescending(rows, ByColumn(IndexOf(cols, TotalCol)));
    }

    /** `df = df[['Total'] + [c for c in df.columns if c != 'Total']]`. */
    method MoveTotalColumnFirst()
      requires WellFormed(Snapshot()) && TotalCol in cols
      modifies this
      ensures Snapshot() == MoveTotalFirst(old(Snapshot()))
    {
      var rs := rows;
      var target := MoveTotalFirst(Snapshot());
      var k := IndexOf(cols, TotalCol);
      var done: seq<Row<R>> := [];
      for i := 0 to |rs|
        invariant done == target.rows[..i]
      {
        done := done + [Row(rs[i].name, MoveFirst(rs[i].cells, k))];
      }
      cols := MoveFirst(cols, k);
      rows := done;
    }

    /** `df.loc['Total'] = df.sum(numeric_only=True)`. */
    method AddTotalRow()
      requires WellFormed(Snapshot())
      modifies this
      ensures Snapshot() == WithTotalRow(old(Snapshot()))
    {
      var rs := rows;
      var target := WithTotalRow(Snapshot());
      var sums: seq<int> := [];
      for j := 0 to |cols|
        invariant unchanged(this)
        invariant |sums| == j
        invariant forall q :: 0 <= q < j ==> sums[q] == ColSum(rs, q)
      {
        var total := SumColumn(rs, j);
        sums := sums + [total];
      }
      assert sums == target.rows[|rs|].cells;
      assert target.rows == rs + [target.rows[|rs|]];
      rows := rs + [Row(TotalRow, sums)];
    }

    /** `for w in ordered: if w not in df.columns: df[w] = 0`. */
    method AddMissingColumns(ordered: seq<C>)
      requires WellFormed(Snapshot())
      modifies this
      ensures Snapshot() == WithMissingColumns(old(Snapshot()), ordered)
    {
      for i := 0 to |ordered|
        invariant WellFormed(Snapshot())
        invariant Snapshot() == WithMissingColumns(old(Snapshot()), ordered[..i])
      {
        assert ordered[..i + 1][..i] == ordered[..i];
        if Col(ordered[i]) !in cols {
          var rs := rows;
          var done: seq<Row<R>> := [];
          for r := 0 to |rs|
            invariant |done| == r
            invariant forall q :: 0 <= q < r ==> done[q] == Row(rs[q].name, rs[q].cells + [0])
          {
            done := done + [Row(rs[r].name, rs[r].cells + [0])];
          }
          cols := cols + [Col(ordered[i])];
          rows := done;
        }
      }
      assert ordered[..|ordered|] == ordered;
    }

    /** `df = df[labels]`. */
    method SelectColumns(labels: seq<ColLabel<C>>)
      requires WellFormed(Snapshot()) && Distinct(labels)
      requires forall l :: l in labels ==> l in cols
      modifies this
      ensures Snapshot() == Reindexed(old(Snapshot()), labels)
    {
      rows := Reindexed(Snapshot(), labels).rows;
      cols := labels;
    }
  }
}
