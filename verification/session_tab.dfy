/**
  The session-entry view: a form for the session being played, the figures
  derived from it, and the start and end buttons, each of which sends two
  commands to the store.
 */
module SessionTab {
  import opened JsSemantics
  import opened PokerTypes
  import opened Lists
  import opened AppContext
  import opened ReportsTab

  /** The format whose sessions are played with a straddle. */
  const EightMax: string := "8-max with ante"

  /** The format a new session falls back to. */
  const HeadsUp: string := "HU with ante"

  /** The form: a session under construction, any field of which may be missing. */
  datatype SessionDraft = SessionDraft(
    date: Option<Time>,
    startTime: Option<Time>,
    endTime: Option<Time>,
    handsStart: Option<int>,
    handsEnd: Option<int>,
    limit: Option<string>,
    format: Option<string>,
    straddle: Option<bool>,
    accountStart: Option<int>,
    accountEnd: Option<int>,
    isActive: Option<bool>)

  /** The form as first shown and as reset by "Start New Session". */
  function InitialDraft(now: Time): SessionDraft {
    SessionDraft(Some(now), Some(now), None, Some(0), None, Some(""), Some(HeadsUp),
      Some(false), Some(0), None, Some(true))
  }

  // ---------------------------------------------------------------------------
  // Starting and ending a session
  // ---------------------------------------------------------------------------

  /**
    The record `handleStartSession` builds: active, with no end figures, and
    each form field that is missing or falsy replaced by its default.
   */
  function NewSession(d: SessionDraft, id: string, now: Time): (x: Session)
    ensures x.id == id && x.isActive
    ensures x.endTime.None? && x.handsEnd.None? && x.accountEnd.None?
    ensures x.format == (if d.format.Some? && d.format.value != "" then d.format.value else HeadsUp)
    ensures x.straddle <==> d.straddle == Some(true)
    ensures x.date == d.date.GetOr(now) && x.startTime == d.startTime.GetOr(now)
    ensures x.handsStart == OrInt(d.handsStart, 0) && x.accountStart == OrInt(d.accountStart, 0)
    ensures x.limit == OrString(d.limit, "")
  {
    Session(id, d.date.GetOr(now), d.startTime.GetOr(now), None,
      OrInt(d.handsStart, 0), None, OrString(d.limit, ""), OrString(d.format, HeadsUp),
      OrFalse(d.straddle), OrInt(d.accountStart, 0), None, true)
  }

  /**
    Starting from the untouched form gives a heads-up session without
    straddle, started now from hand counter 0, account 0 and no limit.
   */
  lemma StartFromInitialDraft(id: string, now: Time, now2: Time)
    ensures NewSession(InitialDraft(now), id, now2) ==
      Session(id, now, now, None, 0, None, "", HeadsUp, false, 0, None, true)
  {
  }

  /** The commands `handleStartSession` sends: add the new record, then make it current. */
  function StartCommands(d: SessionDraft, id: string, now: Time): seq<Action> {
    var x := NewSession(d, id, now);
    [AddSession(x), SetCurrentSession(Some(x))]
  }

  /**
    The record `handleEndSession` builds from the current session: the form's
    end time (or now), the form's end figures as they are, and inactive.
   */
  function EndedSession(current: Session, d: SessionDraft, now: Time): (e: Session)
    ensures e.id == current.id && !e.isActive
    ensures e.endTime == Some(d.endTime.GetOr(now))
    ensures e.handsEnd == d.handsEnd && e.accountEnd == d.accountEnd
    ensures e.accountStart == current.accountStart && e.handsStart == current.handsStart
    ensures e.(endTime := current.endTime, handsEnd := current.handsEnd,
      accountEnd := current.accountEnd, isActive := current.isActive) == current
  {
    current.(endTime := Some(d.endTime.GetOr(now)), handsEnd := d.handsEnd,
      accountEnd := d.accountEnd, isActive := false)
  }

  /** The commands `handleEndSession` sends: none without a current session. */
  function EndCommands(current: Option<Session>, d: SessionDraft, now: Time): seq<Action> {
    match current
    case None => []
    case Some(c) => [UpdateSession(EndedSession(c, d, now)), SetCurrentSession(None)]
  }

  lemma ReplayTwo(s: AppState, a: Action, b: Action)
    ensures Replay(s, [a, b]) == Reduce(Reduce(s, a), b)
  {
    assert [a, b][1..] == [b];
    assert [b][1..] == [];
    calc {
      Replay(s, [a, b]);
      Replay(Reduce(s, a), [b]);
      Replay(Reduce(Reduce(s, a), b), []);
    }
  }

  /**
    Starting appends exactly one active session, with the given id, and makes
    that same session current; nothing else in the state changes.
   */
  lemma StartAppendsAndSelects(s: AppState, d: SessionDraft, id: string, now: Time)
    ensures var x := NewSession(d, id, now);
      var r := Replay(s, StartCommands(d, id, now));
      && r.sessions == s.sessions + [x]
      && r.currentSession == Some(x)
      && x.isActive && x.id == id
      && r == s.(sessions := s.sessions + [x], currentSession := Some(x))
  {
    var x := NewSession(d, id, now);
    ReplayTwo(s, AddSession(x), SetCurrentSession(Some(x)));
  }

  /**
    Ending does nothing without a current session; otherwise every session with
    the current id is replaced by the ended copy, the list keeps its length and
    its ids, and the current session is cleared.
   */
  lemma EndReplacesAndClears(s: AppState, d: SessionDraft, now: Time)
    ensures s.currentSession.None? ==> Replay(s, EndCommands(s.currentSession, d, now)) == s
    ensures s.currentSession.Some? ==>
      var e := EndedSession(s.currentSession.value, d, now);
      var r := Replay(s, EndCommands(s.currentSession, d, now));
      && r.currentSession.None?
      && |r.sessions| == |s.sessions|
      && SessionIds(r.sessions) == SessionIds(s.sessions)
      && (forall i :: 0 <= i < |s.sessions| ==>
            r.sessions[i] == if s.sessions[i].id == e.id then e else s.sessions[i])
      && r == s.(sessions := ReplaceByKey(s.sessions, SessionId, e), currentSession := None)
  {
    if s.currentSession.Some? {
      var e := EndedSession(s.currentSession.value, d, now);
      ReplayTwo(s, UpdateSession(e), SetCurrentSession(None));
      ReplaceKeepsKeys(s.sessions, SessionId, e);
    }
  }

  /**
    A session started under a fresh id and then ended is, at the end of the
    list, exactly the ended record, and no session is current any more.
   */
  lemma StartThenEnd(s: AppState, d: SessionDraft, id: string, now: Time, d2: SessionDraft, now2: Time)
    requires id !in SessionIds(s.sessions)
    ensures var x := NewSession(d, id, now);
      var started := Replay(s, StartCommands(d, id, now));
      var ended := Replay(started, EndCommands(started.currentSession, d2, now2));
      && ended.sessions == s.sessions + [EndedSession(x, d2, now2)]
      && ended.currentSession.None?
  {
    var x := NewSession(d, id, now);
    StartAppendsAndSelects(s, d, id, now);
    var started := Replay(s, StartCommands(d, id, now));
    EndReplacesAndClears(started, d2, now2);
    ReplaceLast(s.sessions, SessionId, x, EndedSession(x, d2, now2));
  }

  // ---------------------------------------------------------------------------
  // Derived figures
  // ---------------------------------------------------------------------------

  /** `getTotalHands`: 0 unless both hand counters are set and nonzero. */
  function TotalHands(d: SessionDraft): (r: int)
    ensures !Truthy(d.handsStart) || !Truthy(d.handsEnd) ==> r == 0
    ensures Truthy(d.handsStart) && Truthy(d.handsEnd) ==> r == d.handsEnd.value - d.handsStart.value
  {
    if !Truthy(d.handsEnd) || !Truthy(d.handsStart) then 0
    else d.handsEnd.value - d.handsStart.value
  }

  /** `getSessionNet`: 0 unless both account figures are set and nonzero. */
  function SessionNet(d: SessionDraft): (r: int)
    ensures !Truthy(d.accountStart) || !Truthy(d.accountEnd) ==> r == 0
    ensures Truthy(d.accountStart) && Truthy(d.accountEnd) ==> r == d.accountEnd.value - d.accountStart.value
  {
    if !Truthy(d.accountEnd) || !Truthy(d.accountStart) then 0
    else d.accountEnd.value - d.accountStart.value
  }

  /**
    The net the form shows is the net the ended record contributes to every
    total, provided the start figure was not edited between start and end; a
    session ended with a nonzero account end from a nonzero start counts in
    the reports.
   */
  lemma SessionNetIsRecordedNet(d: SessionDraft, id: string, now: Time, d2: SessionDraft, now2: Time)
    requires d2.accountStart == d.accountStart
    ensures var e := EndedSession(NewSession(d, id, now), d2, now2);
      && Net(e) == SessionNet(d2)
      && (HasNet(e) <==> Truthy(d2.accountStart) && Truthy(d2.accountEnd))
  {
  }

  /**
    The form's hand total and the reports disagree on a session started from
    a hand counter of 0 (the form's default): the form shows no hands, while
    the reports count all of them.
   */
  lemma ZeroHandsStartShowsNoHands(d: SessionDraft, id: string, now: Time, d2: SessionDraft, now2: Time)
    requires d.handsStart == Some(0) && d2.handsStart == Some(0) && Truthy(d2.handsEnd)
    ensures TotalHands(d2) == 0
    ensures SumHands([EndedSession(NewSession(d, id, now), d2, now2)]) == Some(d2.handsEnd.value)
  {
  }

  /**
    The hand total the form shows is the number of hands the ended record adds
    to the reports, when the form's starting counter is set, nonzero and was
    not edited between start and end.
   */
  lemma FormHandsAreRecordedHands(d: SessionDraft, id: string, now: Time, d2: SessionDraft, now2: Time)
    requires d2.handsStart == d.handsStart && Truthy(d.handsStart) && Truthy(d2.handsEnd)
    ensures SumHands([EndedSession(NewSession(d, id, now), d2, now2)]) == Some(TotalHands(d2))
  {
  }

  /** `differenceInMinutes(later, earlier)`: whole minutes, truncated toward zero. */
  function ElapsedMinutes(later: Time, earlier: Time): (m: int)
    ensures later >= earlier ==> 0 <= m && m * 60000 <= later - earlier < m * 60000 + 60000
    ensures later < earlier ==> m <= 0 && m * 60000 - 60000 < later - earlier <= m * 60000
  {
    TruncDiv(later - earlier, 60000)
  }

  /** A duration shown as "<hours>h <minutes>m". */
  datatype Duration = Duration(hours: int, minutes: int)

  /**
    The split as written: `Math.floor(m / 60)` hours and `m % 60` minutes.
    The hours round down, while the minutes keep the sign of `m`, so the two
    add back to `m` only when `m` is not negative.
   */
  function SplitMinutesAsWritten(m: int): (r: Duration)
    ensures r.hours * 60 <= m < r.hours * 60 + 60
    ensures m >= 0 ==> r.hours * 60 + r.minutes == m && 0 <= r.minutes < 60
    ensures m < 0 ==> -60 < r.minutes <= 0
  {
    Duration(m / 60, JsRem(m, 60))
  }

  /**
    The split as intended: whole hours toward zero and the remaining minutes,
    which together give back `m`.
   */
  function SplitMinutes(m: int): (r: Duration)
    ensures r.hours * 60 + r.minutes == m
    ensures m >= 0 ==> 0 <= r.minutes < 60 && r.hours >= 0
    ensures m < 0 ==> -60 < r.minutes <= 0 && r.hours <= 0
  {
    Duration(TruncDiv(m, 60), JsRem(m, 60))
  }

  /** For a nonnegative number of minutes the two splits agree. */
  lemma SplitsAgreeWhenNonnegative(m: int)
    requires m >= 0
    ensures SplitMinutesAsWritten(m) == SplitMinutes(m)
    ensures SplitMinutes(m) == Duration(m / 60, m % 60)
  {
  }

  /**
    An end time 61 minutes before the start: the split as written shows
    "-2h -1m", which reads as 121 minutes, instead of "-1h -1m".
   */
  lemma NegativeSplitAsWritten()
    ensures SplitMinutesAsWritten(-61) == Duration(-2, -1)
    ensures SplitMinutes(-61) == Duration(-1, -1)
    ensures SplitMinutesAsWritten(-61).hours * 60 + SplitMinutesAsWritten(-61).minutes != -61
  {
    assert -61 / 60 == -2;
    assert TruncDiv(-61, 60) == -1;
  }

  /**
    `getSessionDuration` as written: "0h 0m" without a start time; otherwise
    the hours of the elapsed minutes rounded down, and the minutes the
    corrected split also shows. For an end time not before the start it is
    the corrected duration.
   */
  function SessionDurationAsWritten(d: SessionDraft, now: Time): (r: Duration)
    ensures d.startTime.None? ==> r == Duration(0, 0)
    ensures d.startTime.Some? ==>
      var m := ElapsedMinutes(d.endTime.GetOr(now), d.startTime.value);
      r.hours * 60 <= m < r.hours * 60 + 60 && r.minutes == SessionDuration(d, now).minutes
    ensures d.startTime.Some? && d.endTime.GetOr(now) >= d.startTime.value ==>
      r == SessionDuration(d, now)
  {
    if d.startTime.None? then Duration(0, 0)
    else
      var m := ElapsedMinutes(d.endTime.GetOr(now), d.startTime.value);
      if m >= 0 then SplitsAgreeWhenNonnegative(m); SplitMinutesAsWritten(m)
      else SplitMinutesAsWritten(m)
  }

  /**
    `getSessionDuration` with the intended split: "0h 0m" without a start
    time, else the elapsed whole minutes to the end time (or now).
   */
  function SessionDuration(d: SessionDraft, now: Time): (r: Duration)
    ensures d.startTime.None? ==> r == Duration(0, 0)
    ensures d.startTime.Some? ==>
      r.hours * 60 + r.minutes == ElapsedMinutes(d.endTime.GetOr(now), d.startTime.value)
    ensures d.startTime.Some? && d.endTime.GetOr(now) >= d.startTime.value ==>
      0 <= r.minutes < 60 && 0 <= r.hours
  {
    if d.startTime.None? then Duration(0, 0)
    else SplitMinutes(ElapsedMinutes(d.endTime.GetOr(now), d.startTime.value))
  }

  /**
    `getHandsPerHour`: 0 without a start time, without a (nonzero) hand
    counter at the end, or when less than a minute has elapsed; otherwise the
    form's hand total over the elapsed hours, rounded to the nearest integer.
   */
  function HandsPerHour(d: SessionDraft, now: Time): (r: int)
    ensures d.startTime.None? || !Truthy(d.handsEnd) ==> r == 0
    ensures d.startTime.Some? && Truthy(d.handsEnd) ==>
      var m := ElapsedMinutes(d.endTime.GetOr(now), d.startTime.value);
      && (m <= 0 ==> r == 0)
      && (m > 0 ==> (r as real - 0.5) * (m as real) <= 60.0 * (TotalHands(d) as real))
      && (m > 0 ==> 60.0 * (TotalHands(d) as real) < (r as real + 0.5) * (m as real))
  {
    if d.startTime.None? || !Truthy(d.handsEnd) then 0
    else
      var m := ElapsedMinutes(d.endTime.GetOr(now), d.startTime.value);
      var hours := m as real / 60.0;
      if hours > 0.0 then RoundedRate(TotalHands(d), m) else 0
  }

  /** `Math.round(hands / (m / 60))` for a positive number of minutes `m`. */
  function RoundedRate(hands: int, m: int): (r: int)
    requires m > 0
    ensures (r as real - 0.5) * (m as real) <= 60.0 * (hands as real)
    ensures 60.0 * (hands as real) < (r as real + 0.5) * (m as real)
  {
    var rate := hands as real / (m as real / 60.0);
    assert rate * (m as real) == 60.0 * (hands as real);
    var r := Round(rate);
    assert rate < r as real + 0.5;
    Scale(r as real - 0.5, rate, m as real);
    ScaleStrict(rate, r as real + 0.5, m as real);
    assert 60.0 * (hands as real) < (r as real + 0.5) * (m as real);
    r
  }

  lemma ScaleStrict(x: real, y: real, c: real)
    requires x < y && c > 0.0
    ensures x * c < y * c
  {
    assert y * c - x * c == (y - x) * c;
  }

  lemma Scale(x: real, y: real, c: real)
    requires x <= y && c > 0.0
    ensures x * c <= y * c
  {
    assert y * c - x * c == (y - x) * c;
  }

  /** `getTotalNet`: the running total, left to right, of every session's net. */
  function TotalNet(ss: seq<Session>): int {
    if ss == [] then 0 else TotalNet(ss[..|ss| - 1]) + Net(ss[|ss| - 1])
  }

  /** The total is the sum of the nets of the sessions that have one, and nothing else. */
  lemma {:induction false} TotalNetSumsCompleted(ss: seq<Session>)
    ensures AllHaveNet(Filter(ss, HasNet))
    ensures TotalNet(ss) == SumNet(Filter(ss, HasNet))
  {
    if ss != [] {
      var init, last := ss[..|ss| - 1], ss[|ss| - 1];
      assert ss == init + [last];
      TotalNetSumsCompleted(init);
      FilterAppend(init, [last], HasNet);
      var tail := Filter([last], HasNet);
      assert tail == if HasNet(last) then [last] else [];
      SumNetAppend(Filter(init, HasNet), tail);
    }
  }

  /** The form's running total equals the unfiltered reports' total net. */
  lemma TotalNetIsUnfilteredReportNet(ss: seq<Session>)
    ensures TotalNet(ss) == SessionStatsOf(ss, NoFilters()).totalNet
  {
    NoFiltersKeepAll(ss);
    TotalNetSumsCompleted(ss);
  }

  // ---------------------------------------------------------------------------
  // Form updates
  // ---------------------------------------------------------------------------

  /**
    The carry-forward effect: when the last session ended with a nonzero hand
    counter, the form starts from its hand counter and its account end (or 0).
   */
  function CarriedForward(d: SessionDraft, ss: seq<Session>): SessionDraft {
    if |ss| > 0 && Truthy(ss[|ss| - 1].handsEnd) then
      d.(handsStart := ss[|ss| - 1].handsEnd, accountStart := Some(OrInt(ss[|ss| - 1].accountEnd, 0)))
    else d
  }

  /**
    The next session picks up where the last one ended: ending with hand
    counter h and account end a, then starting again, gives a session that
    starts at h and a, with every other form field as it was.
   */
  lemma NextSessionContinues(d: SessionDraft, ss: seq<Session>, e: Session, id: string, now: Time)
    requires Truthy(e.handsEnd) && Truthy(e.accountEnd)
    ensures var x := NewSession(CarriedForward(d, ss + [e]), id, now);
      && x.handsStart == e.handsEnd.value && x.accountStart == e.accountEnd.value
      && x == NewSession(d, id, now).(handsStart := e.handsEnd.value, accountStart := e.accountEnd.value)
  {
  }

  /** Without a last session, or when it has no (nonzero) hand counter, the form is kept. */
  lemma NothingToCarry(d: SessionDraft, ss: seq<Session>)
    requires ss == [] || !Truthy(ss[|ss| - 1].handsEnd)
    ensures CarriedForward(d, ss) == d
  {
  }

  /**
    A last session that ended with a hand counter but no (nonzero) account end
    still carries its hand counter, and the next session starts from an
    account of 0.
   */
  lemma CarryForwardWithoutAccountEnd(d: SessionDraft, ss: seq<Session>, e: Session, id: string, now: Time)
    requires Truthy(e.handsEnd) && !Truthy(e.accountEnd)
    ensures var x := NewSession(CarriedForward(d, ss + [e]), id, now);
      && x.handsStart == e.handsEnd.value && x.accountStart == 0
      && x == NewSession(d, id, now).(handsStart := e.handsEnd.value, accountStart := 0)
  {
  }

  /** Choosing a format in the form. */
  function WithFormat(d: SessionDraft, f: string): SessionDraft {
    d.(format := Some(f), straddle := Some(f == EightMax))
  }

  /**
    After a format is chosen, the straddle switch is on exactly when the
    format is the 8-max one, and a session started then has that format and
    that straddle (an empty format falling back to heads-up).
   */
  lemma FormatSetsStraddle(d: SessionDraft, f: string, id: string, now: Time)
    ensures OrFalse(WithFormat(d, f).straddle) <==> f == EightMax
    ensures var x := NewSession(WithFormat(d, f), id, now);
      && (x.straddle <==> f == EightMax)
      && x.format == (if f == "" then HeadsUp else f)
  {
  }

  // ---------------------------------------------------------------------------
  // The view
  // ---------------------------------------------------------------------------

  class SessionView {
    const store: AppStore
    var draft: SessionDraft
    var isEditing: bool

    constructor (store: AppStore, now: Time)
      ensures this.store == store && draft == InitialDraft(now) && !isEditing
    {
      this.store := store;
      draft := InitialDraft(now);
      isEditing := false;
    }

    /** `handleStartSession`: add the new record, make it current, and lock the form into editing. */
    method StartSession(id: string, now: Time)
      modifies this, store
      ensures store.state == Replay(old(store.state), StartCommands(old(draft), id, now))
      ensures var x := NewSession(old(draft), id, now);
        store.state.sessions == old(store.state.sessions) + [x] && store.state.currentSession == Some(x)
      ensures store.blob == SaveAsWritten(old(store.blob), store.state, store.show) && store.Synced()
      ensures draft == old(draft) && isEditing
    {
      var x := NewSession(draft, id, now);
      store.Dispatch(AddSession(x));
      store.Dispatch(SetCurrentSession(Some(x)));
      isEditing := true;
      ReplayTwo(old(store.state), AddSession(x), SetCurrentSession(Some(x)));
      StartAppendsAndSelects(old(store.state), old(draft), id, now);
    }

    /** `handleEndSession`: without a current session nothing happens at all. */
    method EndSession(now: Time)
      modifies this, store
      ensures store.state ==
        Replay(old(store.state), EndCommands(old(store.state.currentSession), old(draft), now))
      ensures old(store.state.currentSession).None? ==>
        store.state == old(store.state) && store.blob == old(store.blob) && isEditing == old(isEditing)
      ensures old(store.state.currentSession).Some? ==>
        !isEditing && store.state.currentSession.None?
        && store.blob == SaveAsWritten(old(store.blob), store.state, store.show) && store.Synced()
      ensures draft == old(draft)
    {
      if store.state.currentSession.None? {
        return;
      }
      var e := EndedSession(store.state.currentSession.value, draft, now);
      store.Dispatch(UpdateSession(e));
      store.Dispatch(SetCurrentSession(None));
      isEditing := false;
      ReplayTwo(old(store.state), UpdateSession(e), SetCurrentSession(None));
    }

    /** `handleStartNewSession`: reset the form, leave editing, clear the current session. */
    method StartNewSession(now: Time)
      modifies this, store
      ensures draft == InitialDraft(now) && !isEditing
      ensures store.state == old(store.state).(currentSession := None)
      ensures store.blob == SaveAsWritten(old(store.blob), store.state, store.show) && store.Synced()
    {
      draft := InitialDraft(now);
      isEditing := false;
      store.Dispatch(SetCurrentSession(None));
    }

    /** The carry-forward effect, run after the session list changes. */
    method CarryForward()
      modifies this
      ensures draft == CarriedForward(old(draft), store.state.sessions)
      ensures isEditing == old(isEditing)
    {
      var ss := store.state.sessions;
      if |ss| > 0 {
        var last := ss[|ss| - 1];
        if Truthy(last.handsEnd) {
          draft := draft.(handsStart := last.handsEnd, accountStart := Some(OrInt(last.accountEnd, 0)));
        }
      }
    }

    /** The format selector's change handler. */
    method ChooseFormat(f: string)
      modifies this
      ensures draft == WithFormat(old(draft), f)
      ensures isEditing == old(isEditing)
    {
      draft := WithFormat(draft, f);
    }
  }
}
