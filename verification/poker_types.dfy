/**
  The records the application stores: sessions, players, stakes, formats
  and table ratings.

  Numbers: money and hand counts are integers (money in the smallest unit
  the user enters); VPIP and PFR percentages are reals; points in time are
  integers counting milliseconds, as `Date.prototype.getTime` does.
 */
module PokerTypes {
  import opened JsSemantics

  /** Milliseconds since the epoch. */
  type Time = int

  datatype Session = Session(
    id: string,
    date: Time,
    startTime: Time,
    endTime: Option<Time>,
    handsStart: int,
    handsEnd: Option<int>,
    limit: string,
    format: string,
    straddle: bool,
    accountStart: int,
    accountEnd: Option<int>,
    isActive: bool)

  /** The five player classifications. */
  datatype ColorTag = Green | Yellow | Red | Cyan | Magenta

  /**
    An opponent. `stakes` is absent on records created before the notes view
    started writing it; `aiSummary` is reserved and never written.
   */
  datatype Player = Player(
    id: string,
    name: string,
    colorTag: ColorTag,
    totalHands: int,
    vpip: real,
    pfr: real,
    note: string,
    exploits: string,
    stakes: Option<seq<int>>,
    aiSummary: Option<string>)

  datatype Stake = Stake(id: string, name: string, format: string)

  datatype Format = Format(id: string, name: string)

  /** A rating of a table; `players` are copies taken when the rating was made. */
  datatype TableRating = TableRating(
    id: string,
    tableName: string,
    players: seq<Player>,
    rating: int,
    notes: string)

  /**
    Both account figures are set and nonzero (JavaScript truthiness): the test
    the views apply before a session's result counts.
   */
  predicate HasNet(s: Session) {
    Truthy(s.accountEnd) && s.accountStart != 0
  }

  /** A session's net result where it counts, and 0 elsewhere. */
  function Net(s: Session): int {
    if HasNet(s) then s.accountEnd.value - s.accountStart else 0
  }

  function SessionId(s: Session): string { s.id }

  function PlayerId(p: Player): string { p.id }
}
