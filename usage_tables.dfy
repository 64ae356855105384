/** The count tables of the two usage dashboards: function usage by week,
    by day of a selected week, and by user; and the ranking of users that
    picks the default selection of the daily-usage chart. Each table is
    built in place by the same steps as the scripts and proved equal to a
    table of module Pivot, whose counts are then stated over the records. */
module UsageTables {
  import opened Common
  import opened Events
  import opened WeekBucket
  import opened Pivot
  import opened PivotFrame
  import opened Metrics

  /** Counts, `Total` column, ranking by it, `Total` first, and optionally
      the `Total` row: the in-place steps every ranked table goes through. */
  method BuildRankedTable<R(==), C(==)>(pairs: seq<(R, C)>, rks: seq<R>, cks: seq<C>, withTotalRow: bool)
    returns (t: Table<R, C>)
    requires Distinct(cks)
    ensures withTotalRow ==> t == RankedTableWithTotals(pairs, rks, cks)
    ensures !withTotalRow ==> t == RankedTable(pairs, rks, cks)
  {
    var frame := new Frame.FromCounts(pairs, rks, cks);
    frame.AddTotalColumn();
    frame.SortByTotalDescending();
    frame.MoveTotalColumnFirst();
    if withTotalRow {
      frame.AddTotalRow();
    }
    t := frame.Snapshot();
  }

  // ---------------------------------------------------------------------
  // Function usage by week

  /** The rows `groupby(['week_bucket', 'agent_type'])` keeps: both present. */
  function WeeklyRows(org: seq<Event>, now: int): (rows: seq<Event>)
    ensures forall k :: 0 <= k < |rows| ==> AgentType(rows[k]).Some? && WeekOf(rows[k].createdAt, now).Some?
    ensures forall e :: e in rows <==> e in org && AgentType(e).Some? && WeekOf(e.createdAt, now).Some?
  {
    Filter(org, (e: Event) => AgentType(e).Some? && WeekOf(e.createdAt, now).Some?)
  }

  /** One (agent type, week) record per kept row. */
  function WeeklyPairs(org: seq<Event>, now: int): (pairs: seq<(string, Week)>)
    ensures |pairs| == |WeeklyRows(org, now)|
  {
    var rows := WeeklyRows(org, now);
    seq(|rows|, k requires 0 <= k < |rows| => (AgentType(rows[k]).value, WeekOf(rows[k].createdAt, now).value))
  }

  /** The ranked table with totals of agent types × all four weeks. */
  function WeeklyCounts(org: seq<Event>, now: int): Table<string, Week>
  {
    AllWeeksDistinct();
    var pairs := WeeklyPairs(org, now);
    RankedTableWithTotals(pairs, SortedRowKeys(pairs), AllWeeks)
  }

  /** `df_week_table`: agent types × all four weeks, built in place. */
  method WeeklyTable(org: seq<Event>, now: int) returns (t: Table<string, Week>)
    ensures t == WeeklyCounts(org, now)
  {
    AllWeeksDistinct();
    var pairs := WeeklyPairs(org, now);
    t := BuildRankedTable(pairs, SortedRowKeys(pairs), AllWeeks, true);
  }

  /** The weekly table has `Total` then week1..week4; a row per agent type
      (those of the bucketed rows, by WeeklyAgents), holding its count in every week (0 where
      absent) after its `Total`; rows by non-increasing `Total`; and a
      `Total` row whose first cell is the number of organization rows with
      both a week bucket and an agent type, and whose week cells are the
      number of those rows in each week. */
  lemma WeeklyTableFacts(org: seq<Event>, now: int)
    ensures var pairs := WeeklyPairs(org, now);
      var agents := SortedRowKeys(pairs);
      var t := WeeklyCounts(org, now);
      && WellFormed(t)
      && t.cols == [TotalCol] + ColLabels(AllWeeks)
      && |t.rows| == |agents| + 1
      && (forall i :: 0 <= i < |agents| ==> IsRankedRow(pairs, agents, AllWeeks, t.rows[i]))
      && (forall a :: a in agents ==> exists i :: 0 <= i < |agents| && t.rows[i].name == RowKey(a))
      && (forall i, j :: 0 <= i < j < |agents| ==> t.rows[i].cells[0] >= t.rows[j].cells[0])
      && t.rows[|agents|].name == TotalRow
      && t.rows[|agents|].cells[0] == |WeeklyRows(org, now)|
      && forall j :: 0 <= j < 4 ==> t.rows[|agents|].cells[j + 1] == ColumnCount(pairs, AllWeeks[j])
  {
    AllWeeksDistinct();
    var pairs := WeeklyPairs(org, now);
    CompleteTableFacts(pairs, SortedRowKeys(pairs), AllWeeks);
  }

  /** The weekly table's agent types are those of the bucketed rows. */
  lemma WeeklyAgents(org: seq<Event>, now: int)
    ensures forall a :: a in SortedRowKeys(WeeklyPairs(org, now)) <==> exists e :: e in WeeklyRows(org, now) && AgentType(e) == Some(a)
  {
    var rows := WeeklyRows(org, now);
    var pairs := WeeklyPairs(org, now);
    assert forall k :: 0 <= k < |rows| ==> AgentType(rows[k]) == Some(pairs[k].0);
    forall a ensures a in SortedRowKeys(pairs) <==> exists e :: e in rows && AgentType(e) == Some(a) {
      KeysOfRows(rows, pairs, AgentType, a);
    }
  }

  /** The weeks offered by a week picker, newest first:
      `sorted(df['week_bucket'].dropna().unique(), reverse=True)`. */
  function WeekOptions(rows: seq<Event>, now: int): (weeks: seq<Week>)
    ensures forall w :: w in weeks <==> exists e :: e in rows && WeekOf(e.createdAt, now) == Some(w)
    ensures forall i, j :: 0 <= i < j < |weeks| ==> weeks[i].Number() > weeks[j].Number()
  {
    var buckets := seq(|rows|, k requires 0 <= k < |rows| => WeekOf(rows[k].createdAt, now));
    var weeks := UsedWeeksDescending(buckets);
    assert forall w :: Some(w) in buckets <==> exists e :: e in rows && WeekOf(e.createdAt, now) == Some(w) by {
      forall w ensures Some(w) in buckets <==> exists e :: e in rows && WeekOf(e.createdAt, now) == Some(w) {
        if e :| e in rows && WeekOf(e.createdAt, now) == Some(w) {
          var k :| 0 <= k < |rows| && rows[k] == e;
          assert buckets[k] == Some(w);
        }
      }
    }
    weeks
  }

  // ---------------------------------------------------------------------
  // Function usage by day of a selected week

  /** `df_org[df_org['created_at'].dt.date.isin(week_dates)]`, keeping the
      rows with an agent type (the others drop out of the groupby). */
  function DailyRows(org: seq<Event>, week: Week, now: int): (rows: seq<Event>)
    ensures forall k :: 0 <= k < |rows| ==> AgentType(rows[k]).Some? && rows[k].createdAt.Some?
    ensures forall e :: e in rows <==>
      e in org && AgentType(e).Some? && e.createdAt.Some? && DayOf(e.createdAt.value) in WeekDates(week, now)
  {
    Filter(org, (e: Event) => AgentType(e).Some? && e.createdAt.Some? && DayOf(e.createdAt.value) in WeekDates(week, now))
  }

  /** One (agent type, calendar date) record per kept row. */
  function DailyPairs(org: seq<Event>, week: Week, now: int): (pairs: seq<(string, int)>)
    ensures |pairs| == |DailyRows(org, week, now)|
  {
    var rows := DailyRows(org, week, now);
    seq(|rows|, k requires 0 <= k < |rows| => (AgentType(rows[k]).value, DayOf(rows[k].createdAt.value)))
  }

  lemma WeekDatesDistinct(week: Week, now: int)
    ensures Distinct(WeekDates(week, now))
  {
    var dates := WeekDates(week, now);
    var s := WeekStart(week, now);
    forall i | 0 <= i < 7 ensures dates[i] == DayOf(s) + i {
      DayShift(s, i);
    }
  }

  /** The ranked table with totals of agent types × the seven dates of the week. */
  function DailyCounts(org: seq<Event>, week: Week, now: int): Table<string, int>
  {
    WeekDatesDistinct(week, now);
    var pairs := DailyPairs(org, week, now);
    RankedTableWithTotals(pairs, SortedRowKeys(pairs), WeekDates(week, now))
  }

  /** `df_day_table`: agent types × the seven dates of the week, built in place. */
  method DailyTable(org: seq<Event>, week: Week, now: int) returns (t: Table<string, int>)
    ensures t == DailyCounts(org, week, now)
  {
    WeekDatesDistinct(week, now);
    var pairs := DailyPairs(org, week, now);
    t := BuildRankedTable(pairs, SortedRowKeys(pairs), WeekDates(week, now), true);
  }

  /** The daily table has `Total` then the week's seven dates (consecutive,
      from its start to its end, by WeekDatesCoverWeek); a ranked row for
      every agent type, rows by non-increasing `Total`; and a `Total` row
      whose first cell is the number of organization rows with an agent type
      dated on one of the seven days, and whose date cells are the number of
      those rows on each date. */
  lemma DailyTableFacts(org: seq<Event>, week: Week, now: int)
    ensures var pairs := DailyPairs(org, week, now);
      var agents := SortedRowKeys(pairs);
      var t := DailyCounts(org, week, now);
      && WellFormed(t)
      && t.cols == [TotalCol] + ColLabels(WeekDates(week, now))
      && |t.rows| == |agents| + 1
      && (forall i :: 0 <= i < |agents| ==> IsRankedRow(pairs, agents, WeekDates(week, now), t.rows[i]))
      && (forall a :: a in agents ==> exists i :: 0 <= i < |agents| && t.rows[i].name == RowKey(a))
      && (forall i, j :: 0 <= i < j < |agents| ==> t.rows[i].cells[0] >= t.rows[j].cells[0])
      && t.rows[|agents|].name == TotalRow
      && t.rows[|agents|].cells[0] == |DailyRows(org, week, now)|
      && (forall j :: 0 <= j < 7 ==> t.rows[|agents|].cells[j + 1] == ColumnCount(pairs, WeekDates(week, now)[j]))
  {
    var pairs := DailyPairs(org, week, now);
    var dates := WeekDates(week, now);
    WeekDatesDistinct(week, now);
    var rows := DailyRows(org, week, now);
    forall k | 0 <= k < |pairs| ensures pairs[k].1 in dates {
      assert rows[k] in rows;
    }
    CompleteTableFacts(pairs, SortedRowKeys(pairs), dates);
  }

  /** Every row the weekly table counts in a week is counted by that week's
      daily table. */
  lemma WeeklyRowsInDaily(org: seq<Event>, week: Week, now: int)
    ensures forall e :: e in WeeklyRows(org, now) && WeekOf(e.createdAt, now) == Some(week) ==> e in DailyRows(org, week, now)
  {
    forall e | e in WeeklyRows(org, now) && WeekOf(e.createdAt, now) == Some(week) ensures e in DailyRows(org, week, now) {
      WeekDatesCoverWeek(week, now, e.createdAt.value);
    }
  }

  /** The daily view counts whole calendar days: when `now` is noon, a row
      six hours before the week's start falls in no bucket of that week
      (it is in a gap or before week1) yet is counted by that week's daily
      table. */
  lemma DailyCountsWholeDays(week: Week, now: int)
    requires now % Day == Day / 2
    ensures var t := WeekStart(week, now) - Day / 4;
      WeekOf(Some(t), now) != Some(week) && DayOf(t) in WeekDates(week, now)
  {
    var s := WeekStart(week, now);
    var t := s - Day / 4;
    var q := now / Day;
    assert now == q * Day + Day / 2;
    assert s == (q - week.EndOffset() - 6) * Day + Day / 2;
    assert t == (q - week.EndOffset() - 6) * Day + Day / 4;
    assert DayOf(t) == DayOf(s);
    WeekDatesCoverWeek(week, now, s);
  }

  // ---------------------------------------------------------------------
  // Function usage by user

  /** (user name, agent type) records of the rows with both present. */
  function UserAgentPairs(rows: seq<Event>): (pairs: seq<(string, string)>)
    requires forall k :: 0 <= k < |rows| ==> rows[k].userName.Some? && AgentType(rows[k]).Some?
    ensures |pairs| == |rows|
  {
    seq(|rows|, k requires 0 <= k < |rows| => (rows[k].userName.value, AgentType(rows[k]).value))
  }

  /** The main page's rows of the selected week with a user name and an agent type. */
  function UserWeekRows(org: seq<Event>, week: Week, now: int): (rows: seq<Event>)
    ensures forall k :: 0 <= k < |rows| ==> rows[k].userName.Some? && AgentType(rows[k]).Some?
    ensures forall e :: e in rows <==>
      e in org && WeekOf(e.createdAt, now) == Some(week) && e.userName.Some? && AgentType(e).Some?
  {
    Filter(org, (e: Event) => WeekOf(e.createdAt, now) == Some(week) && e.userName.Some? && AgentType(e).Some?)
  }

  /** One (user name, agent type) record per row of the selected week. */
  function UserWeekPairs(org: seq<Event>, week: Week, now: int): (pairs: seq<(string, string)>)
    ensures |pairs| == |UserWeekRows(org, week, now)|
  {
    UserAgentPairs(UserWeekRows(org, week, now))
  }

  /** `sorted_func_order`: the week's agent types by non-increasing record
      count. The user table's agent-type column is a `Categorical` with these
      categories, so its pivot lays the columns out in this order. */
  function FunctionOrder(pairs: seq<(string, string)>): (cks: seq<string>)
    ensures Distinct(cks)
    ensures forall k :: 0 <= k < |pairs| ==> pairs[k].1 in cks
    ensures forall c :: c in cks ==> exists k :: 0 <= k < |pairs| && pairs[k].1 == c
    ensures forall i, j :: 0 <= i < j < |cks| ==> ColumnCount(pairs, cks[i]) >= ColumnCount(pairs, cks[j])
  {
    RankDistinct(SortedColKeys(pairs), c => ColumnCount(pairs, c))
  }

  /** The ranked table of users × agent types in `sorted_func_order`. */
  function FunctionTable(pairs: seq<(string, string)>): Table<string, string>
  {
    RankedTable(pairs, SortedRowKeys(pairs), FunctionOrder(pairs))
  }

  /** The ranked table of the week's users × their agent types. */
  function UserWeekCounts(org: seq<Event>, week: Week, now: int): Table<string, string>
  {
    FunctionTable(UserWeekPairs(org, week, now))
  }

  /** `df_user_table` of the main page: users × agent types for one week,
      ranked, `Total` first, no `Total` row. */
  method UserWeekTable(org: seq<Event>, week: Week, now: int) returns (t: Table<string, string>)
    ensures t == UserWeekCounts(org, week, now)
  {
    var pairs := UserWeekPairs(org, week, now);
    t := BuildRankedTable(pairs, SortedRowKeys(pairs), FunctionOrder(pairs), false);
  }

  /** The user table has `Total` then the agent types in `sorted_func_order`,
      a ranked row for every user and no other, rows by non-increasing
      `Total`, and its `Total` column adds up to the number of the week's rows
      with a user name and an agent type. */
  lemma UserWeekTableFacts(org: seq<Event>, week: Week, now: int)
    ensures var pairs := UserWeekPairs(org, week, now);
      IsRankedTable(pairs, SortedRowKeys(pairs), FunctionOrder(pairs), UserWeekCounts(org, week, now))
    ensures ColSum(UserWeekCounts(org, week, now).rows, 0) == |UserWeekRows(org, week, now)|
  {
    FunctionTableFacts(UserWeekPairs(org, week, now));
  }

  /** The same, for any (user, agent type) records. */
  lemma FunctionTableFacts(pairs: seq<(string, string)>)
    ensures IsRankedTable(pairs, SortedRowKeys(pairs), FunctionOrder(pairs), FunctionTable(pairs))
    ensures ColSum(FunctionTable(pairs).rows, 0) == |pairs|
  {
    CompleteRankedFacts(pairs, SortedRowKeys(pairs), FunctionOrder(pairs));
  }

  /** The second dashboard's rows: a week bucket, a user name and an agent type. */
  function StackRows(org: seq<Event>, now: int): (rows: seq<Event>)
    ensures forall k :: 0 <= k < |rows| ==> rows[k].userName.Some? && AgentType(rows[k]).Some?
    ensures forall e :: e in rows <==>
      e in org && WeekOf(e.createdAt, now).Some? && e.userName.Some? && AgentType(e).Some?
  {
    Filter(org, (e: Event) => WeekOf(e.createdAt, now).Some? && e.userName.Some? && AgentType(e).Some?)
  }

  /** One (user name, agent type) record per row of the second dashboard. */
  function StackPairs(org: seq<Event>, now: int): (pairs: seq<(string, string)>)
    ensures |pairs| == |StackRows(org, now)|
  {
    UserAgentPairs(StackRows(org, now))
  }

  const TopUserLimit: nat := 10

  /** The second dashboard's users by non-increasing record count. */
  function UserRanking(pairs: seq<(string, string)>): (ranked: seq<string>)
    ensures Distinct(ranked) && |ranked| == |SortedRowKeys(pairs)|
    ensures forall u :: u in ranked <==> u in SortedRowKeys(pairs)
    ensures NonIncreasing(ranked, u => RowCount(pairs, u))
  {
    RankDistinct(SortedRowKeys(pairs), u => RowCount(pairs, u))
  }

  /** `groupby('user_name')['count'].sum().nlargest(10)`: the ten users with
      the most records, or all of them when there are fewer. */
  function TopUsers(pairs: seq<(string, string)>): (top: seq<string>)
    ensures |top| == if |SortedRowKeys(pairs)| < TopUserLimit then |SortedRowKeys(pairs)| else TopUserLimit
    ensures forall i :: 0 <= i < |top| ==> top[i] == UserRanking(pairs)[i]
    ensures Distinct(top)
    ensures forall u :: u in top ==> u in SortedRowKeys(pairs)
  {
    var ranked := UserRanking(pairs);
    var top := Take(ranked, TopUserLimit);
    assert forall i :: 0 <= i < |top| ==> top[i] == ranked[i];
    top
  }

  /** The records of the top users. */
  function TopPairs(pairs: seq<(string, string)>): (kept: seq<(string, string)>)
    ensures forall p :: p in kept <==> p in pairs && p.0 in TopUsers(pairs)
  {
    var top := TopUsers(pairs);
    Filter(pairs, (p: (string, string)) => p.0 in top)
  }

  /** The ranked table of users × agent types over some records. */
  function UserAgentCounts(kept: seq<(string, string)>): Table<string, string>
  {
    RankedTable(kept, SortedRowKeys(kept), SortedColKeys(kept))
  }

  /** The ranked table of the top users × agent types. */
  function TopUserCounts(pairs: seq<(string, string)>): Table<string, string>
  {
    UserAgentCounts(TopPairs(pairs))
  }

  /** `df_table` of the second dashboard: the top users × agent types, over
      all four weeks, ranked, `Total` first, no `Total` row. */
  method TopUserTable(org: seq<Event>, now: int) returns (t: Table<string, string>)
    ensures t == TopUserCounts(StackPairs(org, now))
  {
    var kept := TopPairs(StackPairs(org, now));
    t := BuildRankedTable(kept, SortedRowKeys(kept), SortedColKeys(kept), false);
  }

  lemma DistinctSubsetLength<T>(a: seq<T>, b: seq<T>)
    requires Distinct(a) && Distinct(b)
    requires forall i :: 0 <= i < |a| ==> a[i] in b
    ensures |a| <= |b|
  {
    DistinctCardinality(a);
    DistinctCardinality(b);
    var sa, sb := set x | x in a, set x | x in b;
    assert sa <= sb;
    SubsetCardinality(sa, sb);
  }

  /** The top-user table over any (user, agent type) records, such as
      `StackPairs(org, now)`, has a row for each top user and no other row,
      so at most ten rows, in non-increasing `Total` order. */
  lemma TopUserTableFacts(pairs: seq<(string, string)>)
    ensures var t := TopUserCounts(pairs);
      && |t.rows| <= TopUserLimit
      && (forall i :: 0 <= i < |t.rows| ==> t.rows[i].name.RowKey? && t.rows[i].name.key in TopUsers(pairs))
      && (forall u :: u in TopUsers(pairs) ==> exists i :: 0 <= i < |t.rows| && t.rows[i].name == RowKey(u))
      && (forall i, j :: 0 <= i < j < |t.rows| ==> t.rows[i].cells[0] >= t.rows[j].cells[0])
  {
    var kept := TopPairs(pairs);
    KeptTableFacts(pairs, kept, TopUsers(pairs));
    RankedTableRows(kept, SortedRowKeys(kept), SortedColKeys(kept));
  }

  /** The table of the records kept for the users of `top` has one row for
      each of them and no other. */
  lemma KeptTableFacts(pairs: seq<(string, string)>, kept: seq<(string, string)>, top: seq<string>)
    requires Distinct(top)
    requires forall p :: p in kept <==> p in pairs && p.0 in top
    requires forall u :: u in top ==> u in SortedRowKeys(pairs)
    ensures |UserAgentCounts(kept).rows| <= |top|
    ensures forall i :: 0 <= i < |UserAgentCounts(kept).rows| ==>
      UserAgentCounts(kept).rows[i].name.RowKey? && UserAgentCounts(kept).rows[i].name.key in top
    ensures forall u :: u in top ==>
      exists i :: 0 <= i < |UserAgentCounts(kept).rows| && UserAgentCounts(kept).rows[i].name == RowKey(u)
  {
    KeptRowsWithin(kept, top);
    KeptRowsCover(pairs, kept, top);
  }

  /** Rows only for users of `top`, so no more rows than `top` has users. */
  lemma KeptRowsWithin(kept: seq<(string, string)>, top: seq<string>)
    requires Distinct(top)
    requires forall p :: p in kept ==> p.0 in top
    ensures |UserAgentCounts(kept).rows| <= |top|
    ensures forall i :: 0 <= i < |UserAgentCounts(kept).rows| ==>
      UserAgentCounts(kept).rows[i].name.RowKey? && UserAgentCounts(kept).rows[i].name.key in top
  {
    RowKeysWithin(kept, top);
    RankedRowsWithin(kept, SortedRowKeys(kept), SortedColKeys(kept), top);
  }

  /** A row for every user of `top` who has a record. */
  lemma KeptRowsCover(pairs: seq<(string, string)>, kept: seq<(string, string)>, top: seq<string>)
    requires forall p :: p in pairs && p.0 in top ==> p in kept
    requires forall u :: u in top ==> u in SortedRowKeys(pairs)
    ensures forall u :: u in top ==>
      exists i :: 0 <= i < |UserAgentCounts(kept).rows| && UserAgentCounts(kept).rows[i].name == RowKey(u)
  {
    forall u | u in top {
      KeptRowFor(pairs, kept, top, u);
    }
  }

  /** The same for one user of `top`. */
  lemma KeptRowFor(pairs: seq<(string, string)>, kept: seq<(string, string)>, top: seq<string>, u: string)
    requires forall p :: p in pairs && p.0 in top ==> p in kept
    requires u in top && u in SortedRowKeys(pairs)
    ensures exists i :: 0 <= i < |UserAgentCounts(kept).rows| && UserAgentCounts(kept).rows[i].name == RowKey(u)
  {
    KeptKeys(pairs, kept, top, u);
    var t := UserAgentCounts(kept);
    var i := RowForKey(kept, SortedRowKeys(kept), SortedColKeys(kept), u);
    assert t.rows[i].name == RowKey(u);
  }

  /** A ranked table has a row for each of its row keys. */
  lemma RowForKey<R, C>(pairs: seq<(R, C)>, rks: seq<R>, cks: seq<C>, r: R) returns (i: nat)
    requires Distinct(cks)
    requires r in rks
    ensures i < |RankedTable(pairs, rks, cks).rows| && RankedTable(pairs, rks, cks).rows[i].name == RowKey(r)
  {
    RankedTableRows(pairs, rks, cks);
    i :| i < |RankedTable(pairs, rks, cks).rows| && RankedTable(pairs, rks, cks).rows[i].name == RowKey(r);
  }

  /** When `kept` holds the records whose user is in `top`, a user of `top`
      who has a record has a record kept. */
  lemma KeptKeys(pairs: seq<(string, string)>, kept: seq<(string, string)>, top: seq<string>, u: string)
    requires forall p :: p in pairs && p.0 in top ==> p in kept
    requires u in top && u in SortedRowKeys(pairs)
    ensures u in SortedRowKeys(kept)
  {
    SortedRowKeysMembers(pairs, u);
    var k :| 0 <= k < |pairs| && pairs[k].0 == u;
    assert pairs[k] in pairs;
    var m :| 0 <= m < |kept| && kept[m] == pairs[k];
    SortedRowKeysMembers(kept, u);
  }

  /** A table whose row keys all lie in `keys` has at most `|keys|` rows,
      each named by one of `keys`. */
  lemma RankedRowsWithin<R, C>(pairs: seq<(R, C)>, rks: seq<R>, cks: seq<C>, keys: seq<R>)
    requires Distinct(rks) && Distinct(cks) && Distinct(keys)
    requires forall r :: r in rks ==> r in keys
    ensures var t := RankedTable(pairs, rks, cks);
      && |t.rows| <= |keys|
      && forall i :: 0 <= i < |t.rows| ==> t.rows[i].name.RowKey? && t.rows[i].name.key in keys
  {
    RankedTableRows(pairs, rks, cks);
    DistinctSubsetLength(rks, keys);
  }

  /** The users of records whose users all lie in `keys` are among `keys`. */
  lemma RowKeysWithin(pairs: seq<(string, string)>, keys: seq<string>)
    requires forall p :: p in pairs ==> p.0 in keys
    ensures forall r :: r in SortedRowKeys(pairs) ==> r in keys
  {
    forall r | r in SortedRowKeys(pairs) ensures r in keys {
      SortedRowKeysMembers(pairs, r);
      var k :| 0 <= k < |pairs| && pairs[k].0 == r;
      assert pairs[k] in pairs;
    }
  }

  /** Every user left out of the top users has no more records than any
      user kept. */
  lemma TopUsersDominate(pairs: seq<(string, string)>)
    ensures forall u, v :: u in TopUsers(pairs) && v in SortedRowKeys(pairs) && v !in TopUsers(pairs) ==>
      RowCount(pairs, u) >= RowCount(pairs, v)
  {
    var top := TopUsers(pairs);
    var ranked := UserRanking(pairs);
    TopKDominates(ranked, u => RowCount(pairs, u), TopUserLimit);
    forall u, v | u in top && v in SortedRowKeys(pairs) && v !in top
      ensures RowCount(pairs, u) >= RowCount(pairs, v)
    {
      var i :| 0 <= i < |top| && top[i] == u;
      var j :| 0 <= j < |ranked| && ranked[j] == v;
      assert j >= |top|;
    }
  }

  // ---------------------------------------------------------------------
  // Ranking the users of the daily-usage chart

  /** Active rows with a date and a user name: those `df_user_daily` groups. */
  function UserDailyRows(org: seq<Event>): (rows: seq<Event>)
    ensures forall e :: e in rows <==> e in ActiveRows(org) && e.createdAt.Some? && e.userName.Some?
  {
    Filter(ActiveRows(org), (e: Event) => e.createdAt.Some? && e.userName.Some?)
  }

  /** `sorted_users`: users by non-increasing total daily count. */
  function SortedUsers(org: seq<Event>): (users: seq<string>)
    ensures Distinct(users)
    ensures forall u :: u in users <==> exists e :: e in UserDailyRows(org) && e.userName == Some(u)
    ensures forall i, j :: 0 <= i < j < |users| ==>
      NameCount(UserDailyRows(org), users[i]) >= NameCount(UserDailyRows(org), users[j])
  {
    var rows := UserDailyRows(org);
    RankDistinct(Unique(NameColumn(rows)), u => NameCount(rows, u))
  }

  const DefaultUserCount: nat := 3

  /** `default_users = sorted_users[:3]`: the three busiest users, or all of
      them when there are fewer; nobody left out is busier than anybody chosen. */
  function DefaultUsers(org: seq<Event>): (defaults: seq<string>)
    ensures |defaults| == if |SortedUsers(org)| < DefaultUserCount then |SortedUsers(org)| else DefaultUserCount
    ensures forall i :: 0 <= i < |defaults| ==> defaults[i] == SortedUsers(org)[i]
    ensures forall i, j :: 0 <= i < |defaults| <= j < |SortedUsers(org)| ==>
      NameCount(UserDailyRows(org), defaults[i]) >= NameCount(UserDailyRows(org), SortedUsers(org)[j])
  {
    var users := SortedUsers(org);
    TopKDominates(users, u => NameCount(UserDailyRows(org), u), DefaultUserCount);
    var defaults := Take(users, DefaultUserCount);
    assert forall i :: 0 <= i < |defaults| ==> defaults[i] == users[i];
    defaults
  }
}
