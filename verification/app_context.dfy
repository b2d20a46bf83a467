/**
  The application store: the aggregate state, the closed set of commands,
  the reducer that applies one command, and the persistence bridge that
  restores the state at start-up and writes it back after every change.
 */
module AppContext {
  import opened JsSemantics
  import opened PokerTypes
  import opened Lists

  datatype AppState = AppState(
    sessions: seq<Session>,
    players: seq<Player>,
    stakes: seq<Stake>,
    formats: seq<Format>,
    tableRatings: seq<TableRating>,
    currentSession: Option<Session>,
    totalNet: int)

  /** `Partial<AppState>`: every field may be missing (`currentSession` may also be null). */
  datatype PartialState = PartialState(
    sessions: Option<seq<Session>>,
    players: Option<seq<Player>>,
    stakes: Option<seq<Stake>>,
    formats: Option<seq<Format>>,
    tableRatings: Option<seq<TableRating>>,
    currentSession: Option<Option<Session>>,
    totalNet: Option<int>)

  /** The commands; `Unrecognized` stands for any action whose type the reducer does not list. */
  datatype Action =
    | AddSession(session: Session)
    | UpdateSession(session: Session)
    | DeleteSession(sessionId: string)
    | SetCurrentSession(current: Option<Session>)
    | AddPlayer(player: Player)
    | UpdatePlayer(player: Player)
    | AddStake(stake: Stake)
    | AddFormat(format: Format)
    | LoadData(partial: PartialState)
    | Unrecognized(tag: string)

  /** The state before anything is loaded: six stakes, two formats, nothing else. */
  function InitialState(): AppState {
    AppState(
      [],
      [],
      [ Stake("1", ".2/.5/1 (.2 ante)", "8-max"),
        Stake("2", ".5/1/2 (.5 ante)", "8-max"),
        Stake("3", "1/2/4 (1 ante)", "8-max"),
        Stake("4", "2/4 (1 ante)", "HU"),
        Stake("5", "5/10 (2 ante)", "HU"),
        Stake("6", "10/20 (2 ante)", "HU") ],
      [ Format("1", "HU with ante"),
        Format("2", "8-max with ante") ],
      [],
      None,
      0)
  }

  // ---------------------------------------------------------------------------
  // The reducer
  // ---------------------------------------------------------------------------

  /** The fields of the state, for stating what a command may write. */
  datatype Field = Sessions | Players | Stakes | Formats | TableRatings | CurrentSession | TotalNet

  /** The fields a `LOAD_DATA` payload carries. */
  function Present(p: PartialState): set<Field> {
    (if p.sessions.Some? then {Sessions} else {})
    + (if p.players.Some? then {Players} else {})
    + (if p.stakes.Some? then {Stakes} else {})
    + (if p.formats.Some? then {Formats} else {})
    + (if p.tableRatings.Some? then {TableRatings} else {})
    + (if p.currentSession.Some? then {CurrentSession} else {})
    + (if p.totalNet.Some? then {TotalNet} else {})
  }

  /** The only fields a command may change. */
  function Writes(a: Action): set<Field> {
    match a
    case AddSession(_) => {Sessions}
    case UpdateSession(_) => {Sessions}
    case DeleteSession(_) => {Sessions}
    case SetCurrentSession(_) => {CurrentSession}
    case AddPlayer(_) => {Players}
    case UpdatePlayer(_) => {Players}
    case AddStake(_) => {Stakes}
    case AddFormat(_) => {Formats}
    case LoadData(p) => Present(p)
    case Unrecognized(_) => {}
  }

  /** `s` and `t` hold the same value in field `f`. */
  predicate Agree(s: AppState, t: AppState, f: Field) {
    match f
    case Sessions => s.sessions == t.sessions
    case Players => s.players == t.players
    case Stakes => s.stakes == t.stakes
    case Formats => s.formats == t.formats
    case TableRatings => s.tableRatings == t.tableRatings
    case CurrentSession => s.currentSession == t.currentSession
    case TotalNet => s.totalNet == t.totalNet
  }

  /** `{ ...state, ...payload }`: the fields present in the payload win. */
  function Merge(s: AppState, p: PartialState): AppState {
    AppState(
      p.sessions.GetOr(s.sessions),
      p.players.GetOr(s.players),
      p.stakes.GetOr(s.stakes),
      p.formats.GetOr(s.formats),
      p.tableRatings.GetOr(s.tableRatings),
      p.currentSession.GetOr(s.currentSession),
      p.totalNet.GetOr(s.totalNet))
  }

  /** `appReducer`: apply one command. */
  function Reduce(s: AppState, a: Action): AppState {
    match a
    case AddSession(x) => s.(sessions := s.sessions + [x])
    case UpdateSession(x) => s.(sessions := ReplaceByKey(s.sessions, SessionId, x))
    case DeleteSession(id) => s.(sessions := RemoveByKey(s.sessions, SessionId, id))
    case SetCurrentSession(c) => s.(currentSession := c)
    case AddPlayer(p) => s.(players := s.players + [p])
    case UpdatePlayer(p) => s.(players := ReplaceByKey(s.players, PlayerId, p))
    case AddStake(k) => s.(stakes := s.stakes + [k])
    case AddFormat(f) => s.(formats := s.formats + [f])
    case LoadData(p) => Merge(s, p)
    case Unrecognized(_) => s
  }

  /** No command touches a field outside `Writes`; an unrecognised one touches nothing. */
  lemma ReduceWritesOnly(s: AppState, a: Action)
    ensures forall f :: f !in Writes(a) ==> Agree(s, Reduce(s, a), f)
  {
    var r := Reduce(s, a);
    forall f | f !in Writes(a) ensures Agree(s, r, f) {
      match a {
        case AddSession(_) => assert f != Sessions;
        case UpdateSession(_) => assert f != Sessions;
        case DeleteSession(_) => assert f != Sessions;
        case SetCurrentSession(_) => assert f != CurrentSession;
        case AddPlayer(_) => assert f != Players;
        case UpdatePlayer(_) => assert f != Players;
        case AddStake(_) => assert f != Stakes;
        case AddFormat(_) => assert f != Formats;
        case LoadData(p) =>
          match f {
            case Sessions => assert p.sessions.None?;
            case Players => assert p.players.None?;
            case Stakes => assert p.stakes.None?;
            case Formats => assert p.formats.None?;
            case TableRatings => assert p.tableRatings.None?;
            case CurrentSession => assert p.currentSession.None?;
            case TotalNet => assert p.totalNet.None?;
          }
        case Unrecognized(_) =>
      }
    }
  }

  /** Commands dispatched one after the other. */
  function Replay(s: AppState, cmds: seq<Action>): AppState
    decreases |cmds|
  {
    if cmds == [] then s else Replay(Reduce(s, cmds[0]), cmds[1..])
  }

  function SessionIds(ss: seq<Session>): seq<string> { Keys(ss, SessionId) }

  function PlayerIds(ps: seq<Player>): seq<string> { Keys(ps, PlayerId) }

  /** `ADD_SESSION` appends exactly the payload, which a lookup by a fresh id then finds. */
  lemma AddSessionAppends(s: AppState, x: Session)
    ensures var r := Reduce(s, AddSession(x));
      && |r.sessions| == |s.sessions| + 1
      && r.sessions[..|s.sessions|] == s.sessions
      && r.sessions[|s.sessions|] == x
      && (x.id !in SessionIds(s.sessions) ==> FindByKey(r.sessions, SessionId, x.id) == Some(x))
  {
    if x.id !in SessionIds(s.sessions) {
      FindAfterAppend(s.sessions, SessionId, x);
    }
  }

  /**
    `UPDATE_SESSION` keeps length, order and ids; every session with the payload's
    id (duplicates included) becomes the payload, the others stay; an unknown id
    changes nothing; a second identical update changes nothing more.
   */
  lemma UpdateSessionReplaces(s: AppState, x: Session)
    ensures var r := Reduce(s, UpdateSession(x));
      && |r.sessions| == |s.sessions|
      && SessionIds(r.sessions) == SessionIds(s.sessions)
      && (forall i :: 0 <= i < |s.sessions| && s.sessions[i].id == x.id ==> r.sessions[i] == x)
      && (forall i :: 0 <= i < |s.sessions| && s.sessions[i].id != x.id ==> r.sessions[i] == s.sessions[i])
      && (x.id in SessionIds(s.sessions) ==> FindByKey(r.sessions, SessionId, x.id) == Some(x))
      && (x.id !in SessionIds(s.sessions) ==> r == s)
      && Reduce(r, UpdateSession(x)) == r
  {
    ReplaceKeepsKeys(s.sessions, SessionId, x);
    ReplaceIdempotent(s.sessions, SessionId, x);
    if x.id in SessionIds(s.sessions) {
      FindAfterReplace(s.sessions, SessionId, x);
    } else {
      ReplaceAbsentIsIdentity(s.sessions, SessionId, x);
    }
  }

  /**
    `DELETE_SESSION` leaves no session with that id, keeps the others in their
    relative order, and changes nothing when the id is unknown.
   */
  lemma DeleteSessionRemoves(s: AppState, id: string)
    ensures var r := Reduce(s, DeleteSession(id));
      && id !in SessionIds(r.sessions)
      && IsSubsequence(r.sessions, s.sessions)
      && (forall x :: x in s.sessions && x.id != id ==> x in r.sessions)
      && (id !in SessionIds(s.sessions) ==> r == s)
  {
    if id !in SessionIds(s.sessions) {
      RemoveAbsentIsIdentity(s.sessions, SessionId, id);
    }
  }

  /** Adding a session with a fresh id and deleting that id restores the whole state. */
  lemma AddThenDeleteSession(s: AppState, x: Session)
    requires x.id !in SessionIds(s.sessions)
    ensures Reduce(Reduce(s, AddSession(x)), DeleteSession(x.id)) == s
  {
    RemoveAfterAppend(s.sessions, SessionId, x);
  }

  /** `SET_CURRENT_SESSION` moves the pointer and never touches the session list. */
  lemma SetCurrentSessionOnlyMovesPointer(s: AppState, c: Option<Session>)
    ensures var r := Reduce(s, SetCurrentSession(c));
      r.currentSession == c && r.sessions == s.sessions && r == s.(currentSession := c)
  {
  }

  /** `ADD_PLAYER` appends exactly the payload, which a lookup by a fresh id then finds. */
  lemma AddPlayerAppends(s: AppState, p: Player)
    ensures var r := Reduce(s, AddPlayer(p));
      && |r.players| == |s.players| + 1 && r.players[..|s.players|] == s.players
      && r.players[|s.players|] == p
      && (p.id !in PlayerIds(s.players) ==> FindByKey(r.players, PlayerId, p.id) == Some(p))
  {
    if p.id !in PlayerIds(s.players) {
      FindAfterAppend(s.players, PlayerId, p);
    }
  }

  /** `UPDATE_PLAYER` replaces every player with the payload's id and keeps ids and order. */
  lemma UpdatePlayerReplaces(s: AppState, p: Player)
    ensures var r := Reduce(s, UpdatePlayer(p));
      && PlayerIds(r.players) == PlayerIds(s.players)
      && (forall i :: 0 <= i < |s.players| ==>
            r.players[i] == if s.players[i].id == p.id then p else s.players[i])
      && (p.id in PlayerIds(s.players) ==> FindByKey(r.players, PlayerId, p.id) == Some(p))
      && (p.id !in PlayerIds(s.players) ==> r == s)
  {
    ReplaceKeepsKeys(s.players, PlayerId, p);
    if p.id in PlayerIds(s.players) {
      FindAfterReplace(s.players, PlayerId, p);
    } else {
      ReplaceAbsentIsIdentity(s.players, PlayerId, p);
    }
  }

  /**
    Only `LOAD_DATA` can change `totalNet` or `tableRatings`, and no command
    removes a player: there is no command that writes those otherwise.
   */
  lemma OnlyLoadDataWritesTotalNetAndRatings(s: AppState, a: Action)
    requires !a.LoadData?
    ensures Reduce(s, a).totalNet == s.totalNet
    ensures Reduce(s, a).tableRatings == s.tableRatings
    ensures PlayerIds(s.players) <= PlayerIds(Reduce(s, a).players)
  {
    var r := Reduce(s, a);
    ReduceWritesOnly(s, a);
    assert Agree(s, r, TotalNet) && Agree(s, r, TableRatings);
    if a.UpdatePlayer? {
      ReplaceKeepsKeys(s.players, PlayerId, a.player);
    } else if a.AddPlayer? {
      KeysAppend(s.players, [a.player], PlayerId);
    } else {
      assert Agree(s, r, Players);
    }
  }

  /** `ADD_STAKE` and `ADD_FORMAT` append exactly one element to their list. */
  lemma AddStakeAndFormatAppend(s: AppState, k: Stake, f: Format)
    ensures var r := Reduce(s, AddStake(k));
      |r.stakes| == |s.stakes| + 1 && r.stakes[..|s.stakes|] == s.stakes && r.stakes[|s.stakes|] == k
    ensures var r := Reduce(s, AddFormat(f));
      |r.formats| == |s.formats| + 1 && r.formats[..|s.formats|] == s.formats && r.formats[|s.formats|] == f
  {
  }

  /** `LOAD_DATA` overwrites exactly the fields its payload carries; anything else is left alone. */
  lemma LoadDataMerges(s: AppState, p: PartialState, tag: string)
    ensures var r := Reduce(s, LoadData(p));
      && (p.sessions.Some? ==> r.sessions == p.sessions.value)
      && (p.players.Some? ==> r.players == p.players.value)
      && (p.stakes.Some? ==> r.stakes == p.stakes.value)
      && (p.formats.Some? ==> r.formats == p.formats.value)
      && (p.tableRatings.Some? ==> r.tableRatings == p.tableRatings.value)
      && (p.currentSession.Some? ==> r.currentSession == p.currentSession.value)
      && (p.totalNet.Some? ==> r.totalNet == p.totalNet.value)
      && Reduce(r, LoadData(p)) == r
    ensures Reduce(s, Unrecognized(tag)) == s
  {
  }

  // ---------------------------------------------------------------------------
  // Persistence bridge
  // ---------------------------------------------------------------------------

  /** The save effect writes only when the state has a session or a player. */
  predicate SaveGuard(s: AppState) {
    |s.sessions| > 0 || |s.players| > 0
  }

  /** A session as it sits in storage: its points in time are text. */
  datatype StoredSession = StoredSession(
    id: string,
    date: string,
    startTime: string,
    endTime: Option<string>,
    handsStart: int,
    handsEnd: Option<int>,
    limit: string,
    format: string,
    straddle: bool,
    accountStart: int,
    accountEnd: Option<int>,
    isActive: bool)

  /** The parsed storage record; any key may be missing from an older or edited record. */
  datatype StoredState = StoredState(
    sessions: Option<seq<StoredSession>>,
    players: Option<seq<Player>>,
    stakes: Option<seq<Stake>>,
    formats: Option<seq<Format>>,
    tableRatings: Option<seq<TableRating>>,
    currentSession: Option<Option<StoredSession>>,
    totalNet: Option<int>)

  /** What the storage key holds: nothing, text that does not parse, or a record. */
  datatype Blob = Missing | Unparseable | Stored(data: StoredState)

  /** A date codec: `show` writes a point in time as text, `parse` reads it back. */
  ghost predicate FaithfulCodec(show: Time -> string, parse: string -> Time) {
    forall t :: show(t) != "" && parse(show(t)) == t
  }

  function StoreSession(s: Session, show: Time -> string): StoredSession {
    StoredSession(s.id, show(s.date), show(s.startTime),
      if s.endTime.Some? then Some(show(s.endTime.value)) else None,
      s.handsStart, s.handsEnd, s.limit, s.format, s.straddle,
      s.accountStart, s.accountEnd, s.isActive)
  }

  /** The record the save effect writes: every field of the state. */
  function Serialize(s: AppState, show: Time -> string): StoredState {
    StoredState(
      Some(seq(|s.sessions|, i requires 0 <= i < |s.sessions| => StoreSession(s.sessions[i], show))),
      Some(s.players), Some(s.stakes), Some(s.formats), Some(s.tableRatings),
      Some(if s.currentSession.Some? then Some(StoreSession(s.currentSession.value, show)) else None),
      Some(s.totalNet))
  }

  /**
    The date reconstruction applied to each loaded session: `date` and
    `startTime` are parsed, `endTime` is parsed only when it is non-empty
    text and otherwise stays absent; every other field is kept.
   */
  function ReviveSession(raw: StoredSession, parse: string -> Time): (r: Session)
    ensures r.endTime.None? <==> raw.endTime.None? || raw.endTime.value == ""
    ensures r.endTime.Some? ==> r.endTime.value == parse(raw.endTime.value)
    ensures r.date == parse(raw.date) && r.startTime == parse(raw.startTime)
    ensures && r.id == raw.id && r.handsStart == raw.handsStart && r.handsEnd == raw.handsEnd
            && r.limit == raw.limit && r.format == raw.format && r.straddle == raw.straddle
            && r.accountStart == raw.accountStart && r.accountEnd == raw.accountEnd
            && r.isActive == raw.isActive
  {
    Session(raw.id, parse(raw.date), parse(raw.startTime),
      if raw.endTime.Some? && raw.endTime.value != "" then Some(parse(raw.endTime.value)) else None,
      raw.handsStart, raw.handsEnd, raw.limit, raw.format, raw.straddle,
      raw.accountStart, raw.accountEnd, raw.isActive)
  }

  function ReviveSessions(raws: seq<StoredSession>, parse: string -> Time): (r: seq<Session>)
    ensures |r| == |raws|
    ensures forall i :: 0 <= i < |raws| ==> r[i] == ReviveSession(raws[i], parse)
  {
    seq(|raws|, i requires 0 <= i < |raws| => ReviveSession(raws[i], parse))
  }

  /** The `LOAD_DATA` payload built from the parsed record. */
  function RevivePartial(st: StoredState, parse: string -> Time): PartialState {
    PartialState(
      if st.sessions.Some? then Some(ReviveSessions(st.sessions.value, parse)) else None,
      st.players, st.stakes, st.formats, st.tableRatings,
      match st.currentSession
      case None => None
      case Some(None) => Some(None)
      case Some(Some(c)) => Some(Some(ReviveSession(c, parse))),
      st.totalNet)
  }

  /**
    The load effect: nothing stored or unparseable text dispatches nothing;
    a parsed record is dispatched as `LOAD_DATA`.
   */
  function Hydrate(s: AppState, blob: Blob, parse: string -> Time): (r: AppState)
    ensures !blob.Stored? ==> r == s
    ensures blob.Stored? ==> r == Reduce(s, LoadData(RevivePartial(blob.data, parse)))
  {
    match blob
    case Missing => s
    case Unparseable => s
    case Stored(data) => Reduce(s, LoadData(RevivePartial(data, parse)))
  }

  /** Storing a session and reviving it gives the session back. */
  lemma ReviveStoredSession(x: Session, show: Time -> string, parse: string -> Time)
    requires FaithfulCodec(show, parse)
    ensures ReviveSession(StoreSession(x, show), parse) == x
  {
    assert show(x.date) != "" && parse(show(x.date)) == x.date;
    assert show(x.startTime) != "" && parse(show(x.startTime)) == x.startTime;
    if x.endTime.Some? {
      assert show(x.endTime.value) != "" && parse(show(x.endTime.value)) == x.endTime.value;
    }
  }

  /**
    Load/save round trip: whatever state the load starts from, loading the
    record the save effect wrote for `s` reproduces `s`, sessions with and
    without an end time included.
   */
  lemma SaveThenLoad(s0: AppState, s: AppState, show: Time -> string, parse: string -> Time)
    requires FaithfulCodec(show, parse)
    ensures Hydrate(s0, Stored(Serialize(s, show)), parse) == s
  {
    var st := Serialize(s, show);
    var revived := ReviveSessions(st.sessions.value, parse);
    forall i | 0 <= i < |s.sessions| ensures revived[i] == s.sessions[i] {
      ReviveStoredSession(s.sessions[i], show, parse);
    }
    if s.currentSession.Some? {
      ReviveStoredSession(s.currentSession.value, show, parse);
    }
  }

  /** The save effect as the provider runs it after every state change. */
  function SaveAsWritten(blob: Blob, s: AppState, show: Time -> string): (r: Blob)
    ensures SaveGuard(s) ==> r == Stored(Serialize(s, show))
    ensures !SaveGuard(s) ==> r == blob
  {
    if SaveGuard(s) then Stored(Serialize(s, show)) else blob
  }

  /** The pristine initial state is never written, so it cannot clobber a stored record. */
  lemma PristineStateIsNotSaved(blob: Blob, show: Time -> string)
    ensures !SaveGuard(InitialState())
    ensures SaveAsWritten(blob, InitialState(), show) == blob
  {
  }

  /**
    The guard also skips the write when the user deletes the last session and
    there are no players: the stored record keeps the deleted session, and the
    next load brings it back.
   */
  lemma DeletedLastSessionComesBack(x: Session, show: Time -> string, parse: string -> Time)
    requires FaithfulCodec(show, parse)
    ensures var before := InitialState().(sessions := [x]);
      var after := Reduce(before, DeleteSession(x.id));
      var blob := SaveAsWritten(SaveAsWritten(Missing, before, show), after, show);
      && after.sessions == []
      && Hydrate(InitialState(), blob, parse).sessions == [x]
  {
    var before := InitialState().(sessions := [x]);
    var after := Reduce(before, DeleteSession(x.id));
    assert x.id !in SessionIds(after.sessions);
    SaveThenLoad(InitialState(), before, show, parse);
  }

  /**
    The save effect with the evident intent of the guard: skip writing only
    until the stored record has been loaded, and mirror every state after that.
   */
  function SaveWhenHydrated(blob: Blob, s: AppState, hydrated: bool, show: Time -> string): (r: Blob)
    ensures !hydrated ==> r == blob
  {
    if hydrated then Stored(Serialize(s, show)) else blob
  }

  /** Once loaded, storage always reloads to the current state, deletions included. */
  lemma HydratedSaveMirrorsState(s0: AppState, blob: Blob, s: AppState, show: Time -> string, parse: string -> Time)
    requires FaithfulCodec(show, parse)
    ensures Hydrate(s0, SaveWhenHydrated(blob, s, true, show), parse) == s
  {
    SaveThenLoad(s0, s, show, parse);
  }

  /**
    The provider: it holds the state, applies commands, loads the stored record
    once at start-up, and runs the save effect (with the guard as written)
    after every change of state.
   */
  class AppStore {
    var state: AppState
    /** The value under the storage key. */
    var blob: Blob
    const show: Time -> string
    const parse: string -> Time

    /** Storage agrees with the state whenever the guard lets the save effect write. */
    predicate Synced()
      reads this
    {
      SaveGuard(state) ==> blob == Stored(Serialize(state, show))
    }

    constructor (saved: Blob, show: Time -> string, parse: string -> Time)
      ensures state == InitialState() && blob == saved
      ensures this.show == show && this.parse == parse
      ensures Synced()
    {
      state := InitialState();
      blob := saved;
      this.show := show;
      this.parse := parse;
    }

    /**
      The start-up load: nothing stored, or text that does not parse, leaves
      state and storage alone; a parsed record is dispatched as `LOAD_DATA`,
      and the save effect then runs on the loaded state.
     */
    method Load()
      requires Synced()
      modifies this
      ensures state == Hydrate(old(state), old(blob), parse)
      ensures !old(blob).Stored? ==> state == old(state) && blob == old(blob)
      ensures old(blob).Stored? ==> blob == SaveAsWritten(old(blob), state, show)
      ensures Synced()
    {
      if blob.Stored? {
        state := Hydrate(state, blob, parse);
        blob := SaveAsWritten(blob, state, show);
      }
    }

    /** `dispatch`: apply one command, then run the save effect on the new state. */
    method Dispatch(a: Action)
      modifies this
      ensures state == Reduce(old(state), a)
      ensures blob == SaveAsWritten(old(blob), state, show)
      ensures Synced()
    {
      state := Reduce(state, a);
      blob := SaveAsWritten(blob, state, show);
    }
  }
}
