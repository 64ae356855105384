/** One row of the usage table and the columns every dashboard derives from
    it: the agent type, the minutes an event is assumed to save, and the
    CLSA page's row filter with its "unknown" fill. */
module Events {
  import opened Common

  /** One event record. Times are whole seconds on the local clock;
      `timeToFirstByte` is in milliseconds. Every column may be missing. */
  datatype Event = Event(
    createdAt: Option<int>,
    organization: Option<string>,
    division: Option<string>,
    userEmail: Option<string>,
    userName: Option<string>,
    status: Option<string>,
    functionMode: Option<string>,
    timeToFirstByte: Option<int>,
    earnings: Option<string>,
    briefing: Option<string>)

  const Active: string := "active"
  const InvitedNotJoined: string := "invited_not_joined"
  const JoinedNoUsage: string := "joined_no_usage"
  const Onboarded: string := "onboarded"

  predicate IsActive(e: Event)
  {
    e.status == Some(Active)
  }

  /** `mode.split(":")[0]`: everything before the first colon. */
  function AgentTypeOf(mode: string): (agent: string)
    ensures agent <= mode
    ensures ':' !in agent
    ensures |agent| < |mode| ==> mode[|agent|] == ':'
  {
    if mode == [] || mode[0] == ':' then []
    else [mode[0]] + AgentTypeOf(mode[1..])
  }

  /** The `agent_type` column; missing when `function_mode` is missing. */
  function AgentType(e: Event): (agent: Option<string>)
    ensures agent.Some? <==> e.functionMode.Some?
    ensures agent.Some? ==> agent.value <= e.functionMode.value && ':' !in agent.value
  {
    match e.functionMode
    case None => None
    case Some(mode) => Some(AgentTypeOf(mode))
  }

  const DeepResearchMinutes: nat := 40
  const PulseCheckMinutes: nat := 30
  const DefaultMinutes: nat := 30

  /** `time_map` looked up, with a missing entry filled by the default. */
  function SavedMinutes(agent: Option<string>): (minutes: nat)
    ensures minutes == 40 <==> agent == Some("deep_research")
    ensures minutes == 30 <==> agent != Some("deep_research")
  {
    match agent
    case Some("deep_research") => DeepResearchMinutes
    case Some("pulse_check") => PulseCheckMinutes
    case _ => DefaultMinutes
  }

  const Clsa: string := "CLSA"
  const Unknown: string := "unknown"

  function FillUnknown(v: Option<string>): (filled: string)
    ensures v.Some? ==> filled == v.value
    ensures v.None? ==> filled == Unknown
  {
    match v
    case Some(s) => s
    case None => Unknown
  }

  /** A CLSA row with `function_mode` and `user_name` filled. */
  function FillClsa(e: Event): (f: Event)
    ensures f.functionMode.Some? && f.userName.Some?
    ensures f.functionMode.value == FillUnknown(e.functionMode)
    ensures f.userName.value == FillUnknown(e.userName)
    ensures f.(functionMode := e.functionMode, userName := e.userName) == e
  {
    e.(functionMode := Some(FillUnknown(e.functionMode)), userName := Some(FillUnknown(e.userName)))
  }

  predicate IsClsa(e: Event)
  {
    e.organization == Some(Clsa)
  }

  /** `df_all[df_all.organization == "CLSA"]` followed by the two fills. */
  function ClsaRows(rows: seq<Event>): (r: seq<Event>)
    ensures |r| <= |rows|
    ensures forall i :: 0 <= i < |r| ==>
      IsClsa(r[i]) && r[i].functionMode.Some? && r[i].userName.Some?
    ensures forall x :: x in r ==> exists e :: e in rows && IsClsa(e) && x == FillClsa(e)
    ensures forall e :: e in rows && IsClsa(e) ==> FillClsa(e) in r
    ensures |r| == |Filter(rows, IsClsa)|
    ensures forall k :: 0 <= k < |r| ==> r[k] == FillClsa(Filter(rows, IsClsa)[k])
  {
    var kept := Filter(rows, IsClsa);
    var r := seq(|kept|, k requires 0 <= k < |kept| => FillClsa(kept[k]));
    FilledRows(kept, r);
    r
  }

  /** Filling every row of `kept` in place: the rows keep their organization,
      and the result holds exactly the filled forms of the kept rows. */
  lemma FilledRows(kept: seq<Event>, r: seq<Event>)
    requires |r| == |kept| && forall k :: 0 <= k < |kept| ==> r[k] == FillClsa(kept[k])
    ensures forall i :: 0 <= i < |r| ==>
      r[i].organization == kept[i].organization && r[i].functionMode.Some? && r[i].userName.Some?
    ensures forall x :: x in r ==> exists e :: e in kept && x == FillClsa(e)
    ensures forall e :: e in kept ==> FillClsa(e) in r
  {
    forall x | x in r ensures exists e :: e in kept && x == FillClsa(e) {
      var k :| 0 <= k < |r| && r[k] == x;
      assert kept[k] in kept;
    }
    forall e | e in kept ensures FillClsa(e) in r {
      var k :| 0 <= k < |kept| && kept[k] == e;
      assert r[k] == FillClsa(e);
    }
  }


}
