/**
  The table-rating view: the label and colour for a rating, and the dialog
  that builds a rating record from the chosen players. The record is built
  but never sent to the store.
 */
module TableSelectionTab {
  import opened JsSemantics
  import opened PokerTypes
  import opened Lists
  import opened AppContext

  /** The chip colours a rating is shown with. */
  datatype RatingColor = Success | Warning | Error

  /** `getRatingLabel`. */
  function RatingLabel(rating: int): string {
    if rating >= 4 then "Excellent Table"
    else if rating >= 3 then "Good Table"
    else if rating >= 2 then "Average Table"
    else "Poor Table"
  }

  /** `getRatingColor`. */
  function RatingColorOf(rating: int): RatingColor {
    if rating >= 4 then Success
    else if rating >= 3 then Warning
    else Error
  }

  /**
    The label and the colour agree: "Excellent Table" is exactly the success
    band, "Good Table" exactly the warning band, and both lower labels are
    shown in the error colour.
   */
  lemma LabelAndColorAgree(rating: int)
    ensures RatingLabel(rating) == "Excellent Table" <==> RatingColorOf(rating) == Success
    ensures RatingLabel(rating) == "Good Table" <==> RatingColorOf(rating) == Warning
    ensures RatingColorOf(rating) == Error <==>
      RatingLabel(rating) == "Average Table" || RatingLabel(rating) == "Poor Table"
  {
  }

  /** The rank of a label, from "Poor Table" (0) to "Excellent Table" (3). */
  function LabelRank(text: string): int {
    if text == "Excellent Table" then 3
    else if text == "Good Table" then 2
    else if text == "Average Table" then 1
    else 0
  }

  /** A higher rating never gets a lower label. */
  lemma LabelIsMonotone(r1: int, r2: int)
    requires r1 <= r2
    ensures LabelRank(RatingLabel(r1)) <= LabelRank(RatingLabel(r2))
  {
  }

  // ---------------------------------------------------------------------------
  // The dialog
  // ---------------------------------------------------------------------------

  /** The dialog's fields; `selectedPlayers` holds player ids. */
  datatype TableForm = TableForm(tableName: string, rating: int, notes: string, selectedPlayers: seq<string>)

  /** `handleOpen`: an existing table's fields and its players' ids in order, or a blank form. */
  function Prefill(editing: Option<TableRating>): (f: TableForm)
    ensures editing.Some? ==> f.selectedPlayers == PlayerIds(editing.value.players)
    ensures editing.None? ==> f == TableForm("", 0, "", [])
  {
    match editing
    case Some(t) => TableForm(t.tableName, t.rating, t.notes, PlayerIds(t.players))
    case None => TableForm("", 0, "", [])
  }

  /** The test `p => selected.includes(p.id)`. */
  function IsSelected(selected: seq<string>): Player -> bool {
    (p: Player) => p.id in selected
  }

  /** `handleSave`'s selection: the players whose id is among the selected ones. */
  function SelectPlayers(players: seq<Player>, selected: seq<string>): seq<Player> {
    Filter(players, IsSelected(selected))
  }

  /**
    The selection keeps, in the store's order and with their current fields,
    exactly the players whose id was selected; selected ids that match no
    player contribute nothing.
   */
  lemma SelectionIsStoreOrderSubsequence(players: seq<Player>, selected: seq<string>)
    ensures var r := SelectPlayers(players, selected);
      && IsSubsequence(r, players)
      && (forall p :: p in r <==> p in players && p.id in selected)
      && (forall i :: 0 <= i < |r| ==> r[i].id in selected && r[i].id in PlayerIds(players))
  {
    var r := SelectPlayers(players, selected);
    FilterIsSubsequence(players, IsSelected(selected));
    FilterMembers(players, IsSelected(selected));
    forall i | 0 <= i < |r| ensures r[i].id in PlayerIds(players) {
      var k :| 0 <= k < |players| && players[k] == r[i];
      assert PlayerIds(players)[k] == r[i].id;
    }
  }

  /** Selecting every id in the store selects every player, unchanged and in order. */
  lemma SelectAll(players: seq<Player>)
    ensures SelectPlayers(players, PlayerIds(players)) == players
  {
    forall i | 0 <= i < |players| ensures players[i].id in PlayerIds(players) {
      assert PlayerIds(players)[i] == players[i].id;
    }
    FilterKeepsAll(players, IsSelected(PlayerIds(players)));
  }

  /**
    The record `handleSave` builds: the form's fields, the selected players,
    and the edited table's id, or the fresh id when adding or when the
    edited id is empty.
   */
  function SaveTable(form: TableForm, editing: Option<TableRating>, players: seq<Player>, freshId: string): (t: TableRating)
    ensures editing.Some? && editing.value.id != "" ==> t.id == editing.value.id
    ensures editing.None? || editing.value.id == "" ==> t.id == freshId
    ensures t.tableName == form.tableName && t.rating == form.rating && t.notes == form.notes
    ensures t.players == SelectPlayers(players, form.selectedPlayers)
  {
    var id := if editing.Some? && editing.value.id != "" then editing.value.id else freshId;
    TableRating(id, form.tableName, SelectPlayers(players, form.selectedPlayers), form.rating, form.notes)
  }

  /**
    Reopening a table and saving it unchanged, while the store's players are
    exactly the table's players, rebuilds the same record.
   */
  lemma ReopenAndSaveUnchanged(t: TableRating, freshId: string)
    requires t.id != ""
    ensures SaveTable(Prefill(Some(t)), Some(t), t.players, freshId) == t
  {
    SelectAll(t.players);
  }

  /**
    The players stored with a rating are copies: updating a player in the
    store leaves every rating, and the players copied into it, as they were.
   */
  lemma RatingsKeepPlayerCopies(s: AppState, p: Player)
    ensures Reduce(s, UpdatePlayer(p)).tableRatings == s.tableRatings
  {
    OnlyLoadDataWritesTotalNetAndRatings(s, UpdatePlayer(p));
  }

  class TableSelectionView {
    const store: AppStore
    var open: bool
    var editing: Option<TableRating>
    var form: TableForm

    constructor (store: AppStore)
      ensures this.store == store && !open && editing.None? && form == Prefill(None)
    {
      this.store := store;
      open := false;
      editing := None;
      form := Prefill(None);
    }

    /** `handleOpen`. */
    method Open(table: Option<TableRating>)
      modifies this
      ensures open && editing == table && form == Prefill(table)
    {
      editing := table;
      form := Prefill(table);
      open := true;
    }

    /**
      `handleSave`: builds the record from the store's current players and
      closes the dialog; the store is not touched.
     */
    method Save(freshId: string) returns (t: TableRating)
      modifies this
      ensures t == SaveTable(old(form), old(editing), store.state.players, freshId)
      ensures !open && editing.None? && form == old(form)
      ensures store.state == old(store.state) && store.blob == old(store.blob)
    {
      t := SaveTable(form, editing, store.state.players, freshId);
      open := false;
      editing := None;
    }
  }
}
