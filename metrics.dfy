/** The headline numbers and cohort lists above the charts: row filters by
    organization and status, distinct-user counts, the guarded averages, the
    invited / joined-without-usage / inactive email lists, the organization
    pickers, the top user and the response-time validity filter. */
module Metrics {
  import opened Common
  import opened Events
  import opened WeekBucket

  // ---------------------------------------------------------------------
  // Row filters

  /** `df_all[df_all['organization'] == org]`. */
  function OrgRows(rows: seq<Event>, org: string): (r: seq<Event>)
    ensures |r| <= |rows|
    ensures forall e :: e in r <==> e in rows && e.organization == Some(org)
  {
    Filter(rows, (e: Event) => e.organization == Some(org))
  }


  /** `df[df['status'] == status]`. */
  function WithStatus(rows: seq<Event>, status: string): (r: seq<Event>)
    ensures |r| <= |rows|
    ensures forall e :: e in r <==> e in rows && e.status == Some(status)
  {
    Filter(rows, (e: Event) => e.status == Some(status))
  }


  /** The active rows: `df[df['status'] == 'active']`. */
  function ActiveRows(rows: seq<Event>): (r: seq<Event>)
    ensures |r| <= |rows|
    ensures forall e :: e in r <==> e in rows && IsActive(e)
  {
    WithStatus(rows, Active)
  }

  // ---------------------------------------------------------------------
  // Distinct users

  /** The distinct non-missing `user_email` values (`nunique()` counts them). */
  function Emails(rows: seq<Event>): (emails: set<string>)
    ensures forall x :: x in emails <==> exists e :: e in rows && e.userEmail == Some(x)
  {
    if rows == [] then {}
    else
      assert rows == [rows[0]] + rows[1..];
      (if rows[0].userEmail.Some? then {rows[0].userEmail.value} else {}) + Emails(rows[1..])
  }

  /** There are never more distinct emails than rows. */
  lemma {:induction false} EmailsAtMostRows(rows: seq<Event>)
    ensures |Emails(rows)| <= |rows|
  {
    if rows != [] {
      EmailsAtMostRows(rows[1..]);
    }
  }

  lemma EmailsMonotone(sub: seq<Event>, rows: seq<Event>)
    requires forall e :: e in sub ==> e in rows
    ensures Emails(sub) <= Emails(rows)
  {
  }

  /** `total_users = df_org['user_email'].nunique()`: at most one per row,
      and zero exactly when no row carries an email. */
  function TotalUsers(org: seq<Event>): (n: nat)
    ensures n <= |org|
    ensures n == 0 <==> forall e :: e in org ==> e.userEmail.None?
  {
    EmailsAtMostRows(org);
    NoEmails(org);
    |Emails(org)|
  }

  /** `active_users = df_active['user_email'].nunique()`: at most one per
      active row, and zero exactly when no active row carries an email. */
  function ActiveUsers(org: seq<Event>): (n: nat)
    ensures n <= |ActiveRows(org)|
    ensures n == 0 <==> forall e :: e in org && IsActive(e) ==> e.userEmail.None?
  {
    EmailsAtMostRows(ActiveRows(org));
    NoEmails(ActiveRows(org));
    |Emails(ActiveRows(org))|
  }

  /** `total_events = df_active.shape[0]`: zero exactly when no row is active. */
  function TotalEvents(org: seq<Event>): (n: nat)
    ensures n <= |org|
    ensures n == 0 <==> forall e :: e in org ==> !IsActive(e)
  {
    var active := ActiveRows(org);
    assert active != [] ==> active[0] in active;
    |active|
  }

  /** No distinct email exactly when no row carries one. */
  lemma NoEmails(rows: seq<Event>)
    ensures |Emails(rows)| == 0 <==> forall e :: e in rows ==> e.userEmail.None?
  {
    if e :| e in rows && e.userEmail.Some? {
      assert e.userEmail.value in Emails(rows);
    }
  }

  /** Active users never outnumber all users (the active rows are some of the
      organization's rows), nor the active events. */
  lemma ActiveWithinTotal(org: seq<Event>)
    ensures ActiveUsers(org) <= TotalUsers(org)
    ensures ActiveUsers(org) <= TotalEvents(org)
  {
    var active := ActiveRows(org);
    EmailsMonotone(active, org);
    SubsetCardinality(Emails(active), Emails(org));
    EmailsAtMostRows(active);
  }

  // ---------------------------------------------------------------------
  // Guarded averages

  /** `avg_events`: zero without active users, otherwise the quotient of
      events by active users (rounding is not modelled). */
  datatype AvgEvents = ZeroAvg | EventsPerUser(events: nat, users: nat)

  function AvgEventsOf(org: seq<Event>): (avg: AvgEvents)
    ensures avg == ZeroAvg <==> ActiveUsers(org) == 0
    ensures avg.EventsPerUser? ==>
      avg.users == ActiveUsers(org) && avg.events == TotalEvents(org) && avg.events >= avg.users >= 1
  {
    ActiveWithinTotal(org);
    if ActiveUsers(org) > 0 then EventsPerUser(TotalEvents(org), ActiveUsers(org)) else ZeroAvg
  }

  /** `saved_minutes` summed over some rows. */
  function SavedMinutesSum(rows: seq<Event>): (total: nat)
    ensures PulseCheckMinutes * |rows| <= total <= DeepResearchMinutes * |rows|
  {
    if rows == [] then 0 else SavedMinutes(AgentType(rows[0])) + SavedMinutesSum(rows[1..])
  }

  /** The buckets in use: `df_org["week_bucket"].dropna().unique()`. */
  function UsedWeeks(org: seq<Event>, now: int): (weeks: set<Week>)
    ensures forall w :: w in weeks <==> exists e :: e in org && WeekOf(e.createdAt, now) == Some(w)
  {
    if org == [] then {}
    else
      assert org == [org[0]] + org[1..];
      var b := WeekOf(org[0].createdAt, now);
      (if b.Some? then {b.value} else {}) + UsedWeeks(org[1..], now)
  }

  lemma SubsetCardinality<T>(a: set<T>, b: set<T>)
    requires a <= b
    ensures |a| <= |b|
  {
    assert b == a + (b - a);
  }

  lemma AtMostFourWeeks(weeks: set<Week>)
    ensures |weeks| <= 4
  {
    var all := {Week1, Week2, Week3, Week4};
    forall w | w in weeks ensures w in all { WeekCases(w); }
    SubsetCardinality(weeks, all);
  }

  /** `saved_display`: a dash unless some bucket is used and some user is
      active; otherwise total saved minutes over weeks over active users. */
  datatype SavedTime = Dash | PerUserPerWeek(minutes: nat, weeks: nat, users: nat)

  function SavedTimeOf(org: seq<Event>, now: int): (saved: SavedTime)
    ensures saved == Dash <==> |UsedWeeks(org, now)| == 0 || ActiveUsers(org) == 0
    ensures saved.PerUserPerWeek? ==>
      && saved.weeks == |UsedWeeks(org, now)| && 1 <= saved.weeks <= 4
      && saved.users == ActiveUsers(org) >= 1
      && PulseCheckMinutes * TotalEvents(org) <= saved.minutes <= DeepResearchMinutes * TotalEvents(org)
      && saved.minutes >= PulseCheckMinutes * saved.users
  {
    var weeks, users := |UsedWeeks(org, now)|, ActiveUsers(org);
    if weeks >= 1 && users > 0 then
      AtMostFourWeeks(UsedWeeks(org, now));
      ActiveWithinTotal(org);
      PerUserPerWeek(SavedMinutesSum(ActiveRows(org)), weeks, users)
    else Dash
  }

  /** `f"{earnings_users}/{briefing_users}"`: users onboarded to each add-on. */
  function OnboardedUsers(org: seq<Event>): (counts: (nat, nat))
    ensures counts.0 <= TotalUsers(org) && counts.1 <= TotalUsers(org)
  {
    var earnings := OnboardedEarnings(org);
    var briefing := OnboardedBriefing(org);
    EmailsMonotone(earnings, org);
    EmailsMonotone(briefing, org);
    SubsetCardinality(Emails(earnings), Emails(org));
    SubsetCardinality(Emails(briefing), Emails(org));
    (|Emails(earnings)|, |Emails(briefing)|)
  }

  function OnboardedEarnings(rows: seq<Event>): (r: seq<Event>)
    ensures forall e :: e in r <==> e in rows && e.earnings == Some(Onboarded)
  {
    Filter(rows, (e: Event) => e.earnings == Some(Onboarded))
  }


  function OnboardedBriefing(rows: seq<Event>): (r: seq<Event>)
    ensures forall e :: e in r <==> e in rows && e.briefing == Some(Onboarded)
  {
    Filter(rows, (e: Event) => e.briefing == Some(Onboarded))
  }


  // ---------------------------------------------------------------------
  // Cohort email lists

  /** The non-missing `user_email` values of some rows, in row order. */
  function EmailColumn(rows: seq<Event>): (emails: seq<string>)
    ensures forall x :: x in emails <==> exists e :: e in rows && e.userEmail == Some(x)
  {
    if rows == [] then []
    else
      assert rows == [rows[0]] + rows[1..];
      (if rows[0].userEmail.Some? then [rows[0].userEmail.value] else []) + EmailColumn(rows[1..])
  }

  /** `df_org[df_org['status'] == status]['user_email'].dropna().unique()`. */
  function StatusEmails(org: seq<Event>, status: string): (emails: seq<string>)
    ensures Distinct(emails)
    ensures forall x :: x in emails <==> exists e :: e in org && e.status == Some(status) && e.userEmail == Some(x)
  {
    Unique(EmailColumn(WithStatus(org, status)))
  }

  /** The organization's rows whose email never occurs among the active rows'
      emails (a row with no email is kept; it is dropped just after). */
  function NotActiveRows(org: seq<Event>, active: set<string>): (r: seq<Event>)
    ensures forall e :: e in r <==> e in org && (e.userEmail.None? || e.userEmail.value !in active)
  {
    Filter(org, (e: Event) => e.userEmail.None? || e.userEmail.value !in active)
  }


  /** `df_org[~df_org['user_email'].isin(df_active['user_email'])]['user_email'].dropna().unique()`. */
  function InactiveEmails(org: seq<Event>): (emails: seq<string>)
    ensures Distinct(emails)
    ensures forall x :: x in emails <==> x in Emails(org) && x !in Emails(ActiveRows(org))
  {
    Unique(EmailColumn(NotActiveRows(org, Emails(ActiveRows(org)))))
  }

  /** Inactive and active users split the organization's users: no email is
      in both, and together they are all of them. */
  lemma InactivePartition(org: seq<Event>)
    ensures forall x :: x in InactiveEmails(org) ==> x !in Emails(ActiveRows(org))
    ensures |InactiveEmails(org)| + ActiveUsers(org) == TotalUsers(org)
  {
    EmailsMonotone(ActiveRows(org), org);
    ComplementCount(InactiveEmails(org), Emails(org), Emails(ActiveRows(org)));
  }

  /** A list holding, once each, exactly the members of `all` outside its
      subset `part` is as long as the two sizes' difference. */
  lemma ComplementCount(rest: seq<string>, all: set<string>, part: set<string>)
    requires Distinct(rest) && part <= all
    requires forall x :: x in rest <==> x in all && x !in part
    ensures |rest| + |part| == |all|
  {
    DistinctCardinality(rest);
    var restSet := set x | x in rest;
    assert restSet == all - part;
    assert all == restSet + part;
  }

  const EmptyDisplay: string := "—"

  /** `", ".join(items)`. */
  function JoinComma(items: seq<string>): (joined: string)
    ensures items != [] ==> items[0] <= joined
    ensures |joined| == LengthSum(items) + (if items == [] then 0 else 2 * (|items| - 1))
  {
    if items == [] then ""
    else if |items| == 1 then items[0]
    else items[0] + ", " + JoinComma(items[1..])
  }

  function LengthSum(items: seq<string>): nat
  {
    if items == [] then 0 else |items[0]| + LengthSum(items[1..])
  }

  /** `", ".join(emails) if len(emails) > 0 else "—"`. */
  function EmailsDisplay(emails: seq<string>): (display: string)
    ensures emails == [] ==> display == EmptyDisplay
    ensures emails != [] ==> display == JoinComma(emails) && emails[0] <= display
  {
    if |emails| > 0 then JoinComma(emails) else EmptyDisplay
  }

  // ---------------------------------------------------------------------
  // Organization pickers

  /** The non-missing `organization` values of some rows, in row order. */
  function OrgColumn(rows: seq<Event>): (orgs: seq<string>)
    ensures forall o :: o in orgs <==> exists e :: e in rows && e.organization == Some(o)
  {
    if rows == [] then []
    else
      assert rows == [rows[0]] + rows[1..];
      (if rows[0].organization.Some? then [rows[0].organization.value] else []) + OrgColumn(rows[1..])
  }

  /** `sorted(df_all['organization'].dropna().unique())`. */
  function SortedOrgs(rows: seq<Event>): (orgs: seq<string>)
    ensures StrictlyAscending(orgs)
    ensures forall o :: o in orgs <==> exists e :: e in rows && e.organization == Some(o)
  {
    SortedDistinct(OrgColumn(rows))
  }

  /** Active rows of organization `o`. */
  function ActiveCount(rows: seq<Event>, o: string): nat
  {
    if rows == [] then 0
    else (if rows[0].organization == Some(o) && IsActive(rows[0]) then 1 else 0) + ActiveCount(rows[1..], o)
  }

  /** `df_all[status == 'active'].groupby('organization').size().sort_values(ascending=False)`:
      the organizations with an active row, most active first. */
  function OrgsByActivity(rows: seq<Event>): (orgs: seq<string>)
    ensures Distinct(orgs)
    ensures forall o :: o in orgs <==> exists e :: e in rows && IsActive(e) && e.organization == Some(o)
    ensures forall i, j :: 0 <= i < j < |orgs| ==> ActiveCount(rows, orgs[i]) >= ActiveCount(rows, orgs[j])
  {
    RankDistinct(Unique(OrgColumn(ActiveRows(rows))), o => ActiveCount(rows, o))
  }

  // ---------------------------------------------------------------------
  // Top user

  /** Active rows of the given user name. */
  function NameCount(rows: seq<Event>, name: string): nat
  {
    if rows == [] then 0
    else (if rows[0].userName == Some(name) then 1 else 0) + NameCount(rows[1..], name)
  }

  /** The non-missing `user_name` values of some rows, in row order. */
  function NameColumn(rows: seq<Event>): (names: seq<string>)
    ensures forall n :: n in names <==> exists e :: e in rows && e.userName == Some(n)
  {
    if rows == [] then []
    else
      assert rows == [rows[0]] + rows[1..];
      (if rows[0].userName.Some? then [rows[0].userName.value] else []) + NameColumn(rows[1..])
  }

  lemma {:induction false} NameCountPositive(rows: seq<Event>, name: string)
    requires exists e :: e in rows && e.userName == Some(name)
    ensures NameCount(rows, name) >= 1
  {
    if rows[0].userName != Some(name) {
      assert rows == [rows[0]] + rows[1..];
      NameCountPositive(rows[1..], name);
    }
  }

  lemma {:induction false} NameCountZero(rows: seq<Event>, name: string)
    requires forall e :: e in rows ==> e.userName != Some(name)
    ensures NameCount(rows, name) == 0
  {
    if rows != [] {
      assert rows == [rows[0]] + rows[1..];
      NameCountZero(rows[1..], name);
    }
  }

  /** A candidate with the largest score (the first one among equals). */
  function ArgMax(cands: seq<string>, score: string -> nat): (best: string)
    requires cands != []
    ensures best in cands
    ensures forall c :: c in cands ==> score(c) <= score(best)
  {
    if |cands| == 1 then cands[0]
    else
      var rest := ArgMax(cands[1..], score);
      assert forall c :: c in cands ==> c == cands[0] || c in cands[1..];
      if score(cands[0]) >= score(rest) then cands[0] else rest
  }

  /** `top_user_display`: "N/A" when no active row names a user, otherwise a
      user of largest active-row count, with that count. */
  function TopUser(active: seq<Event>): (top: Option<(string, nat)>)
    ensures top.None? <==> forall e :: e in active ==> e.userName.None?
    ensures top.Some? ==>
      && top.value.1 == NameCount(active, top.value.0) >= 1
      && forall n :: NameCount(active, n) <= top.value.1
  {
    var names := Unique(NameColumn(active));
    if names == [] then
      None
    else
      var best := ArgMax(names, n => NameCount(active, n));
      NameCountPositive(active, best);
      assert forall n :: NameCount(active, n) <= NameCount(active, best) by {
        forall n ensures NameCount(active, n) <= NameCount(active, best) {
          if n !in names {
            NameCountZero(active, n);
          }
        }
      }
      Some((best, NameCount(active, best)))
  }

  // ---------------------------------------------------------------------
  // Response-time validity filter

  const MaxLatencyMs: int := 300000

  /** `time_to_first_byte` after the two outlier assignments: values at or
      below 0 and above 300000 ms become missing. */
  function ValidLatency(v: Option<int>): (r: Option<int>)
    ensures r.Some? <==> v.Some? && 0 < v.value <= MaxLatencyMs
    ensures r.Some? ==> r == v
  {
    match v
    case None => None
    case Some(ms) =>
      if ms <= 0 then None
      else if ms > MaxLatencyMs then None
      else v
  }

  /** The filter applied to the whole column: same length, every survivor in
      (0, 300000], and every in-range value kept where it was. */
  function FilterLatencies(column: seq<Option<int>>): (r: seq<Option<int>>)
    ensures |r| == |column|
    ensures forall i :: 0 <= i < |r| ==> r[i].Some? ==> 0 < r[i].value <= MaxLatencyMs && r[i] == column[i]
    ensures forall i :: 0 <= i < |r| ==>
      (column[i].Some? && 0 < column[i].value <= MaxLatencyMs ==> r[i] == column[i])
  {
    seq(|column|, i requires 0 <= i < |column| => ValidLatency(column[i]))
  }
}
