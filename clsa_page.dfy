/** The CLSA department page: the CLSA rows with `function_mode` and
    `user_name` filled, one division chosen, a user selection kept in the
    session (the same slot the main page uses), and a table of function
    modes × week1..week4 with a `Total` column and a `Total` row. */
module ClsaPage {
  import opened Common
  import opened Events
  import opened WeekBucket
  import opened Pivot
  import opened PivotFrame
  import opened Metrics
  import opened Selection

  /** `df_clsa["division"].dropna()`: the present division values in row order. */
  function DivisionColumn(rows: seq<Event>): (divs: seq<string>)
    ensures forall d :: d in divs <==> exists e :: e in rows && e.division == Some(d)
  {
    if rows == [] then []
    else
      assert rows == [rows[0]] + rows[1..];
      (if rows[0].division.Some? then [rows[0].division.value] else []) + DivisionColumn(rows[1..])
  }

  /** `sorted(df_clsa["division"].dropna().unique())`: the division picker's options. */
  function Divisions(clsa: seq<Event>): (divs: seq<string>)
    ensures StrictlyAscending(divs) && Distinct(divs)
    ensures forall d :: d in divs <==> exists e :: e in clsa && e.division == Some(d)
  {
    var divs := SortedDistinct(DivisionColumn(clsa));
    StrictlyAscendingIsDistinct(divs);
    divs
  }

  /** `df_clsa[df_clsa["division"] == selected_div]`. With no division to
      pick the selectbox yields nothing, which no row's division equals. */
  function DivisionRows(clsa: seq<Event>, selected: Option<string>): (rows: seq<Event>)
    ensures forall e :: e in rows <==> e in clsa && selected.Some? && e.division == selected
    ensures selected.None? ==> rows == []
  {
    var rows := Filter(clsa, (e: Event) => selected.Some? && e.division == selected);
    assert selected.None? ==> rows == [] by {
      assert rows != [] ==> rows[0] in rows;
    }
    rows
  }

  /** `sorted(df_div["user_name"].dropna().unique())`: the user picker's options. */
  function ClsaUsers(divRows: seq<Event>): (users: seq<string>)
    ensures StrictlyAscending(users) && Distinct(users)
    ensures forall u :: u in users <==> exists e :: e in divRows && e.userName == Some(u)
  {
    var users := SortedDistinct(NameColumn(divRows));
    StrictlyAscendingIsDistinct(users);
    users
  }

  const ClsaDefaultCount: nat := 3

  /** The page's user picker: store the first three users when the session
      holds no selection yet, then show the stored users that are options. */
  method ClsaUserPicker(state: SelectionState, users: seq<string>) returns (shown: seq<string>)
    modifies state
    ensures forall u :: u in shown ==> u in users
    ensures old(state.stored).None? ==>
      shown == Take(users, ClsaDefaultCount) && state.stored == Some(Take(users, ClsaDefaultCount))
    ensures old(state.stored).Some? ==>
      shown == ValidDefault(old(state.stored).value, users) && state.stored == old(state.stored)
  {
    var defaults := Take(users, ClsaDefaultCount);
    if state.stored.None? {
      ValidDefaultKeepsOptions(defaults, users);
    }
    state.InitIfAbsent(defaults);
    shown := state.DefaultShown(users);
  }

  /** `df_div[df_div["user_name"].isin(selected_users)]`. */
  function ClsaFilteredRows(divRows: seq<Event>, selected: seq<string>): (rows: seq<Event>)
    ensures forall e :: e in rows <==> e in divRows && e.userName.Some? && e.userName.value in selected
  {
    Filter(divRows, (e: Event) => e.userName.Some? && e.userName.value in selected)
  }

  /** The rows `groupby(["function_mode", "week"])` keeps: those with a week. */
  function ClsaWeekRows(filtered: seq<Event>, now: int): (rows: seq<Event>)
    ensures forall k :: 0 <= k < |rows| ==> WeekOf(rows[k].createdAt, now).Some?
    ensures forall e :: e in rows <==> e in filtered && WeekOf(e.createdAt, now).Some?
  {
    Filter(filtered, (e: Event) => WeekOf(e.createdAt, now).Some?)
  }

  /** One (function mode, week) record per kept row; a missing mode reads `unknown`. */
  function ClsaPairs(filtered: seq<Event>, now: int): (pairs: seq<(string, Week)>)
    ensures |pairs| == |ClsaWeekRows(filtered, now)|
  {
    var rows := ClsaWeekRows(filtered, now);
    seq(|rows|, k requires 0 <= k < |rows| => (FillUnknown(rows[k].functionMode), WeekOf(rows[k].createdAt, now).value))
  }

  /** The page's table as a value: the count grid of function modes over
      all four weeks, with the `Total` column and the `Total` row. */
  function ClsaGrid(filtered: seq<Event>, now: int): Table<string, Week>
  {
    var pairs := ClsaPairs(filtered, now);
    AllWeeksDistinct();
    WithTotalRow(WithTotalColumn(CountGrid(pairs, SortedRowKeys(pairs), AllWeeks)))
  }

  /** `pivot_df`: count the present weeks, add each missing week as a zero
      column, put the columns in week order, then append the `Total` column
      and the `Total` row. */
  method ClsaTable(filtered: seq<Event>, now: int) returns (t: Table<string, Week>)
    ensures t == ClsaGrid(filtered, now)
  {
    var pairs := ClsaPairs(filtered, now);
    AllWeeksDistinct();
    t := WidenedTable(pairs, SortedRowKeys(pairs), ColKeys(pairs), AllWeeks);
  }

  /** Pivot over the column keys present, widen to `ordered` with zero
      columns, reindex to `ordered`, then add both totals in place: the
      result is the count grid over `ordered` with both totals. */
  method WidenedTable<R(==), C(==)>(pairs: seq<(R, C)>, rks: seq<R>, present: seq<C>, ordered: seq<C>)
    returns (t: Table<R, C>)
    requires Distinct(present) && Distinct(ordered)
    requires forall k :: 0 <= k < |pairs| ==> pairs[k].1 in present
    ensures t == WithTotalRow(WithTotalColumn(CountGrid(pairs, rks, ordered)))
  {
    var frame := new Frame.FromCounts(pairs, rks, present);
    var grid := frame.Snapshot();
    GridHoldsCounts(pairs, rks, present);
    assert forall k :: 0 <= k < |pairs| ==> Col(pairs[k].1) in grid.cols by {
      forall k | 0 <= k < |pairs| ensures Col(pairs[k].1) in grid.cols {
        var j :| 0 <= j < |present| && present[j] == pairs[k].1;
        assert grid.cols[j] == Col(pairs[k].1);
      }
    }
    frame.AddMissingColumns(ordered);
    var widened := frame.Snapshot();
    MissingColumnsHoldCounts(grid, pairs, rks, ordered);
    ReindexedCounts(widened, pairs, rks, ordered);
    frame.SelectColumns(ColLabels(ordered));
    frame.AddTotalColumn();
    frame.AddTotalRow();
    t := frame.Snapshot();
  }

  /** The table has week1..week4 then `Total`; a row per function mode with
      its count in each week and their sum; and a `Total` row whose week
      cells count the kept rows of each week and whose last cell is the
      number of selected rows that fall in some week. */
  lemma ClsaTableFacts(filtered: seq<Event>, now: int)
    ensures var pairs := ClsaPairs(filtered, now);
      var modes := SortedRowKeys(pairs);
      var t := ClsaGrid(filtered, now);
      && t.cols == ColLabels(AllWeeks) + [TotalCol]
      && |t.rows| == |modes| + 1
      && (forall i :: 0 <= i < |modes| ==> t.rows[i] == GridRow(pairs, modes[i], AllWeeks))
      && t.rows[|modes|].name == TotalRow
      && t.rows[|modes|].cells[4] == |ClsaWeekRows(filtered, now)|
      && forall j :: 0 <= j < 4 ==> t.rows[|modes|].cells[j] == ColumnCount(pairs, AllWeeks[j])
  {
    var pairs := ClsaPairs(filtered, now);
    AllWeeksDistinct();
    PlainTableFacts(pairs, SortedRowKeys(pairs), AllWeeks);
  }

  /** The table's function modes are the filled modes of the kept rows. */
  lemma ClsaModes(filtered: seq<Event>, now: int)
    ensures forall m :: m in SortedRowKeys(ClsaPairs(filtered, now)) <==>
      exists e :: e in ClsaWeekRows(filtered, now) && FillUnknown(e.functionMode) == m
  {
    var rows := ClsaWeekRows(filtered, now);
    var pairs := ClsaPairs(filtered, now);
    var mode := (e: Event) => Some(FillUnknown(e.functionMode));
    assert forall k :: 0 <= k < |rows| ==> mode(rows[k]) == Some(pairs[k].0);
    forall m ensures m in SortedRowKeys(pairs) <==> exists e :: e in rows && FillUnknown(e.functionMode) == m {
      KeysOfRows(rows, pairs, mode, m);
    }
  }

  /** One run of the page for a chosen division: the CLSA rows, the
      division's rows, its users, the picker, and the table over the
      rows of the users shown. */
  method RunClsaPage(all: seq<Event>, state: SelectionState, division: Option<string>, now: int)
    returns (users: seq<string>, shown: seq<string>, t: Table<string, Week>)
    modifies state
    ensures var divRows := DivisionRows(ClsaRows(all), division);
      && users == ClsaUsers(divRows)
      && (forall u :: u in shown ==> u in users)
      && t == ClsaGrid(ClsaFilteredRows(divRows, shown), now)
    ensures old(state.stored).None? ==>
      shown == Take(users, ClsaDefaultCount) && state.stored == Some(Take(users, ClsaDefaultCount))
    ensures old(state.stored).Some? ==>
      shown == ValidDefault(old(state.stored).value, users) && state.stored == old(state.stored)
  {
    var divRows := DivisionRows(ClsaRows(all), division);
    users := ClsaUsers(divRows);
    shown := ClsaUserPicker(state, users);
    t := ClsaTable(ClsaFilteredRows(divRows, shown), now);
  }
}
