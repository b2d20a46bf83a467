/**
  The reports view: the filtered list of sessions, the summary statistics
  over it, and the edit and delete commands it issues.
 */
module ReportsTab {
  import opened JsSemantics
  import opened PokerTypes
  import opened Lists
  import opened AppContext

  /** The filter criteria; empty text means "any". `straddle` is "", "true" or "false". */
  datatype Filters = Filters(stake: string, format: string, straddle: string)

  function NoFilters(): Filters { Filters("", "", "") }

  /** `haystack.includes(needle)`. */
  predicate Includes(haystack: string, needle: string) {
    exists i | 0 <= i <= |haystack| :: needle <= haystack[i..]
  }

  /** The filter's test: a conjunction of the criteria that are set. */
  predicate Matches(f: Filters, s: Session) {
    && (f.stake == "" || Includes(s.limit, f.stake))
    && (f.format == "" || s.format == f.format)
    && (f.straddle == "" || s.straddle == (f.straddle == "true"))
  }

  /** `filteredSessions`. */
  function FilteredSessions(ss: seq<Session>, f: Filters): seq<Session> {
    Filter(ss, s => Matches(f, s))
  }

  /**
    The filtered list holds the sessions that pass every set criterion, in
    their original order, each as often as it occurs; every omitted session
    fails some criterion.
   */
  lemma FilteredSessionsSpec(ss: seq<Session>, f: Filters)
    ensures IsSubsequence(FilteredSessions(ss, f), ss)
    ensures forall s :: s in FilteredSessions(ss, f) <==> s in ss && Matches(f, s)
    ensures forall s :: multiset(FilteredSessions(ss, f))[s] == if Matches(f, s) then multiset(ss)[s] else 0
  {
    FilterIsSubsequence(ss, s => Matches(f, s));
    FilterMembers(ss, s => Matches(f, s));
    FilterCounts(ss, s => Matches(f, s));
  }

  /** With no criterion set, every session is listed, unchanged and in order. */
  lemma NoFiltersKeepAll(ss: seq<Session>)
    ensures FilteredSessions(ss, NoFilters()) == ss
  {
    FilterKeepsAll(ss, s => Matches(NoFilters(), s));
  }

  /** A stake criterion equal to a session's limit selects it: every text includes itself. */
  lemma LimitIncludesItself(s: Session, format: string, straddle: string)
    requires format == "" || format == s.format
    requires straddle == "" || (straddle == "true") == s.straddle
    ensures Matches(Filters(s.limit, format, straddle), s)
  {
    assert s.limit <= s.limit[0..];
  }

  /** The straddle criterion: "true" keeps straddled sessions, any other set text unstraddled ones. */
  lemma StraddleCriterion(f: Filters, s: Session)
    requires f.stake == "" && f.format == ""
    ensures f.straddle == "" ==> Matches(f, s)
    ensures f.straddle == "true" ==> (Matches(f, s) <==> s.straddle)
    ensures f.straddle == "false" ==> (Matches(f, s) <==> !s.straddle)
  {
  }

  // ---------------------------------------------------------------------------
  // Summary statistics
  // ---------------------------------------------------------------------------

  /** The statistics; `None` in `totalHands` and `handsPerHour` stands for `NaN`. */
  datatype SessionStats = SessionStats(
    totalSessions: nat,
    totalNet: int,
    totalHands: Option<int>,
    totalHours: real,
    avgNetPerSession: real,
    handsPerHour: Option<real>)

  const MillisPerHour: real := 3600000.0

  predicate AllHaveNet(cs: seq<Session>) {
    forall i :: 0 <= i < |cs| ==> HasNet(cs[i])
  }

  /** Sum of `accountEnd - accountStart` over sessions that all have both figures. */
  function SumNet(cs: seq<Session>): int
    requires AllHaveNet(cs)
  {
    if cs == [] then 0 else (cs[0].accountEnd.value - cs[0].accountStart) + SumNet(cs[1..])
  }

  /** Sum of `handsEnd - handsStart`; a missing `handsEnd` makes the sum `NaN`. */
  function SumHands(cs: seq<Session>): Option<int> {
    if cs == [] then Some(0)
    else
      match (cs[0].handsEnd, SumHands(cs[1..]))
      case (Some(h), Some(rest)) => Some(h - cs[0].handsStart + rest)
      case _ => None
  }

  /** A session's length in hours, or 0 without an end time. */
  function HoursOf(s: Session): real {
    if s.endTime.Some? then (s.endTime.value - s.startTime) as real / MillisPerHour else 0.0
  }

  function SumHours(cs: seq<Session>): real {
    if cs == [] then 0.0 else HoursOf(cs[0]) + SumHours(cs[1..])
  }

  /** The sessions the statistics are computed over. */
  function CompletedSessions(ss: seq<Session>, f: Filters): (cs: seq<Session>)
    ensures AllHaveNet(cs)
  {
    Filter(FilteredSessions(ss, f), HasNet)
  }

  /** `getSessionStats`. */
  function SessionStatsOf(ss: seq<Session>, f: Filters): SessionStats {
    StatsOver(CompletedSessions(ss, f))
  }

  /** The statistics over the completed sessions `cs`. */
  function StatsOver(cs: seq<Session>): SessionStats
    requires AllHaveNet(cs)
  {
    var n := |cs|;
    var net := SumNet(cs);
    var hands := SumHands(cs);
    var hours := SumHours(cs);
    SessionStats(
      n, net, hands, hours,
      if n > 0 then net as real / n as real else 0.0,
      if hours > 0.0 then (if hands.Some? then Some(hands.value as real / hours) else None)
      else Some(0.0))
  }

  lemma {:induction false} SumNetAppend(cs: seq<Session>, ds: seq<Session>)
    requires AllHaveNet(cs) && AllHaveNet(ds)
    ensures AllHaveNet(cs + ds) && SumNet(cs + ds) == SumNet(cs) + SumNet(ds)
  {
    if cs == [] {
      assert cs + ds == ds;
    } else {
      assert (cs + ds)[1..] == cs[1..] + ds;
      SumNetAppend(cs[1..], ds);
    }
  }

  lemma {:induction false} SumHandsAppend(cs: seq<Session>, ds: seq<Session>)
    ensures SumHands(cs + ds) ==
      if SumHands(cs).Some? && SumHands(ds).Some? then Some(SumHands(cs).value + SumHands(ds).value)
      else None
  {
    if cs == [] {
      assert cs + ds == ds;
    } else {
      assert (cs + ds)[1..] == cs[1..] + ds;
      SumHandsAppend(cs[1..], ds);
    }
  }

  lemma {:induction false} SumHoursAppend(cs: seq<Session>, ds: seq<Session>)
    ensures SumHours(cs + ds) == SumHours(cs) + SumHours(ds)
  {
    if cs == [] {
      assert cs + ds == ds;
    } else {
      assert (cs + ds)[1..] == cs[1..] + ds;
      SumHoursAppend(cs[1..], ds);
    }
  }

  /** `totalHands` is `NaN` exactly when some counted session has no `handsEnd`. */
  lemma {:induction false} SumHandsNaN(cs: seq<Session>)
    ensures SumHands(cs).None? <==> exists i :: 0 <= i < |cs| && cs[i].handsEnd.None?
  {
    if cs != [] {
      SumHandsNaN(cs[1..]);
      if SumHands(cs).None? && cs[0].handsEnd.Some? {
        var i :| 0 <= i < |cs[1..]| && cs[1..][i].handsEnd.None?;
        assert cs[i + 1].handsEnd.None?;
      }
      if (exists i :: 0 <= i < |cs| && cs[i].handsEnd.None?) && cs[0].handsEnd.Some? {
        var i :| 0 <= i < |cs| && cs[i].handsEnd.None?;
        assert cs[1..][i - 1].handsEnd.None?;
      }
    }
  }

  /** `totalHands` is `NaN` exactly when some counted session has no hand count at the end. */
  lemma TotalHandsNaNIff(ss: seq<Session>, f: Filters)
    ensures var cs := CompletedSessions(ss, f);
      SessionStatsOf(ss, f).totalHands.None? <==>
        exists s :: s in cs && s.handsEnd.None?
  {
    var cs := CompletedSessions(ss, f);
    SumHandsNaN(cs);
    FilterMembers(FilteredSessions(ss, f), HasNet);
    if exists s :: s in cs && s.handsEnd.None? {
      var s :| s in cs && s.handsEnd.None?;
      var i :| 0 <= i < |cs| && cs[i] == s;
    }
  }

  /**
    The average and the rate over the completed sessions: exact quotients,
    with 0 where the divisor is 0 and `NaN` hands giving a `NaN` rate.
   */
  lemma AverageAndRate(cs: seq<Session>)
    requires AllHaveNet(cs)
    ensures var st := StatsOver(cs);
      && (st.totalSessions > 0 ==> st.avgNetPerSession * st.totalSessions as real == st.totalNet as real)
      && (st.totalSessions == 0 ==> st.avgNetPerSession == 0.0 && st.totalNet == 0 && st.totalHours == 0.0)
      && (st.totalHours <= 0.0 ==> st.handsPerHour == Some(0.0))
      && (st.totalHours > 0.0 && st.totalHands.Some? ==>
            st.handsPerHour.Some? && st.handsPerHour.value * st.totalHours == st.totalHands.value as real)
      && (st.totalHours > 0.0 && st.totalHands.None? ==> st.handsPerHour.None?)
  {
    var st := StatsOver(cs);
    if st.totalSessions > 0 {
      var n := st.totalSessions as real;
      var net := st.totalNet as real;
      assert st.avgNetPerSession == net / n;
      assert (net / n) * n == net;
    }
    if st.totalHours > 0.0 && st.totalHands.Some? {
      var h := st.totalHours;
      var x := st.totalHands.value as real;
      assert st.handsPerHour.value == x / h;
      assert (x / h) * h == x;
    }
  }

  /** The completed sessions of a concatenation are those of each part, concatenated. */
  lemma CompletedAppend(ss: seq<Session>, ts: seq<Session>, f: Filters)
    ensures CompletedSessions(ss + ts, f) == CompletedSessions(ss, f) + CompletedSessions(ts, f)
  {
    FilterAppend(ss, ts, s => Matches(f, s));
    FilterAppend(FilteredSessions(ss, f), FilteredSessions(ts, f), HasNet);
  }

  /**
    A session that is not completed, or that the filter rejects, adds nothing
    to any statistic.
   */
  lemma UncountedSessionAddsNothing(ss: seq<Session>, x: Session, f: Filters)
    requires !HasNet(x) || !Matches(f, x)
    ensures SessionStatsOf(ss + [x], f) == SessionStatsOf(ss, f)
  {
    CompletedAppend(ss, [x], f);
    var c := CompletedSessions([x], f);
    assert c == [] by {
      FilterMembers(FilteredSessions([x], f), HasNet);
      FilterMembers([x], s => Matches(f, s));
      assert x !in c;
    }
    assert CompletedSessions(ss, f) + c == CompletedSessions(ss, f);
  }

  /**
    A completed session that passes the filter adds one to the count, its net
    to the total net, its hands to the total hands and its length to the hours.
   */
  lemma {:induction false} CompletedSessionAddsItself(ss: seq<Session>, x: Session, f: Filters)
    requires HasNet(x) && Matches(f, x)
    ensures var before := SessionStatsOf(ss, f);
      var after := SessionStatsOf(ss + [x], f);
      && after.totalSessions == before.totalSessions + 1
      && after.totalNet == before.totalNet + (x.accountEnd.value - x.accountStart)
      && after.totalHours == before.totalHours + HoursOf(x)
      && (x.handsEnd.Some? && before.totalHands.Some? ==>
            after.totalHands == Some(before.totalHands.value + x.handsEnd.value - x.handsStart))
      && (x.handsEnd.None? ==> after.totalHands.None?)
  {
    var cs := CompletedSessions(ss, f);
    CompletedGrows(ss, x, f);
    StatsAppendOne(cs, x);
    var before, after := StatsOver(cs), StatsOver(cs + [x]);
    assert SessionStatsOf(ss, f) == before;
    assert SessionStatsOf(ss + [x], f) == after;
  }

  /** The completed sessions grow by `x` when `x` is completed and passes the filter. */
  lemma CompletedGrows(ss: seq<Session>, x: Session, f: Filters)
    requires HasNet(x) && Matches(f, x)
    ensures SessionStatsOf(ss + [x], f) == StatsOver(CompletedSessions(ss, f) + [x])
  {
    CompletedAppend(ss, [x], f);
    CompletedSingleton(x, f);
  }

  lemma CompletedSingleton(x: Session, f: Filters)
    requires HasNet(x) && Matches(f, x)
    ensures CompletedSessions([x], f) == [x]
  {
    FilterKeepsAll([x], s => Matches(f, s));
    FilterKeepsAll([x], HasNet);
  }

  lemma StatsAppendOne(cs: seq<Session>, x: Session)
    requires AllHaveNet(cs) && HasNet(x)
    ensures AllHaveNet(cs + [x])
    ensures var before := StatsOver(cs);
      var after := StatsOver(cs + [x]);
      && after.totalSessions == before.totalSessions + 1
      && after.totalNet == before.totalNet + (x.accountEnd.value - x.accountStart)
      && after.totalHours == before.totalHours + HoursOf(x)
      && (x.handsEnd.Some? && before.totalHands.Some? ==>
            after.totalHands == Some(before.totalHands.value + x.handsEnd.value - x.handsStart))
      && (x.handsEnd.None? ==> after.totalHands.None?)
  {
    SumNetAppend(cs, [x]);
    SumHandsAppend(cs, [x]);
    SumHoursAppend(cs, [x]);
  }

  /**
    An account start of 0 is falsy, so a session that started from an empty
    account is not counted, whatever it ended with.
   */
  lemma ZeroStartIsNotCounted(x: Session)
    requires x.accountStart == 0 && x.accountEnd.Some?
    ensures SessionStatsOf([x], NoFilters()).totalSessions == 0
    ensures SessionStatsOf([x], NoFilters()).totalNet == 0
  {
    UncountedSessionAddsNothing([], x, NoFilters());
  }

  // ---------------------------------------------------------------------------
  // Editing and deleting
  // ---------------------------------------------------------------------------

  /** The edit dialog's fields. */
  datatype EditForm = EditForm(
    date: Time,
    startTime: Time,
    endTime: Time,
    handsStart: int,
    handsEnd: int,
    limit: string,
    format: string,
    straddle: bool,
    accountStart: int,
    accountEnd: int)

  /** `handleEditSession`: the dialog's fields for a session; missing end figures default. */
  function EditFormFor(s: Session, now: Time): (form: EditForm)
    ensures form.endTime == s.endTime.GetOr(now)
    ensures form.handsEnd == s.handsEnd.GetOr(0) && form.accountEnd == s.accountEnd.GetOr(0)
    ensures form.date == s.date && form.startTime == s.startTime && form.handsStart == s.handsStart
    ensures form.limit == s.limit && form.format == s.format && form.straddle == s.straddle
    ensures form.accountStart == s.accountStart
  {
    EditForm(s.date, s.startTime, if s.endTime.Some? then s.endTime.value else now,
      s.handsStart, OrInt(s.handsEnd, 0), s.limit, s.format, s.straddle,
      s.accountStart, OrInt(s.accountEnd, 0))
  }

  /**
    `handleSaveEdit`: with no session under edit nothing is dispatched;
    otherwise the session under edit, with the dialog's fields, is sent as
    `UPDATE_SESSION`, keeping its id and its active flag.
   */
  function SaveEdit(editing: Option<Session>, form: EditForm): (cmd: Option<Action>)
    ensures editing.None? <==> cmd.None?
    ensures cmd.Some? ==> cmd.value.UpdateSession?
    ensures cmd.Some? ==> var s := cmd.value.session;
      && s.id == editing.value.id && s.isActive == editing.value.isActive
      && s.date == form.date && s.startTime == form.startTime
      && s.endTime == Some(form.endTime)
      && s.handsStart == form.handsStart && s.handsEnd == Some(form.handsEnd)
      && s.limit == form.limit && s.format == form.format && s.straddle == form.straddle
      && s.accountStart == form.accountStart && s.accountEnd == Some(form.accountEnd)
  {
    match editing
    case None => None
    case Some(e) =>
      Some(UpdateSession(e.(
        date := form.date, startTime := form.startTime, endTime := Some(form.endTime),
        handsStart := form.handsStart, handsEnd := Some(form.handsEnd),
        limit := form.limit, format := form.format, straddle := form.straddle,
        accountStart := form.accountStart, accountEnd := Some(form.accountEnd))))
  }

  /**
    Opening the dialog and saving without changes is a no-op for a finished
    session whose id is unique; an unfinished one gets the defaults written in,
    and an account end that was missing stays falsy, so it still does not count.
   */
  lemma EditWithoutChanges(st: AppState, s: Session, now: Time)
    requires forall i :: 0 <= i < |st.sessions| && st.sessions[i].id == s.id ==> st.sessions[i] == s
    ensures var cmd := SaveEdit(Some(s), EditFormFor(s, now));
      && cmd.Some?
      && (s.endTime.Some? && s.handsEnd.Some? && s.accountEnd.Some? ==>
            cmd.value == UpdateSession(s) && Reduce(st, cmd.value) == st)
      && (s.endTime.None? ==> cmd.value.session.endTime == Some(now))
      && (s.accountEnd.None? ==> !HasNet(cmd.value.session))
  {
    var cmd := SaveEdit(Some(s), EditFormFor(s, now));
    if s.endTime.Some? && s.handsEnd.Some? && s.accountEnd.Some? {
      assert cmd.value.session == s;
      ReplaceBySelf(st.sessions, SessionId, s);
    }
  }

  /** `handleDeleteSession`: the delete is dispatched only when the user confirms. */
  function DeleteRequest(sessionId: string, confirmed: bool): (cmd: Option<Action>)
    ensures cmd.Some? <==> confirmed
    ensures cmd.Some? ==> cmd.value == DeleteSession(sessionId)
  {
    if confirmed then Some(DeleteSession(sessionId)) else None
  }
}
