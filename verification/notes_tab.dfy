/**
  The player-notes view: the colour-tag legend, the add/edit dialog with its
  stake checklist, the expandable rows for long notes, and the commands the
  dialog sends to the store.
 */
module NotesTab {
  import opened JsSemantics
  import opened PokerTypes
  import opened Lists
  import opened AppContext

  // ---------------------------------------------------------------------------
  // Colour tags
  // ---------------------------------------------------------------------------

  /** A tag with the label (`title`) and the colour the view shows for it. */
  datatype TagOption = TagOption(value: ColorTag, title: string, color: string)

  const ColorTagOptions: seq<TagOption> := [
    TagOption(Green, "General Fish", "#4caf50"),
    TagOption(Yellow, "Solid Reg", "#ff9800"),
    TagOption(Red, "Excellent Reg", "#f44336"),
    TagOption(Cyan, "Passive Fish", "#00bcd4"),
    TagOption(Magenta, "Aggro Fish", "#e91e63")
  ]

  function TagValue(o: TagOption): ColorTag { o.value }

  /** `getColorTagInfo`: the option for a tag, or the first option when none has it. */
  function ColorTagInfo(tag: ColorTag): (o: TagOption)
    ensures o in ColorTagOptions
    ensures FindByKey(ColorTagOptions, TagValue, tag).Some? ==> o.value == tag
    ensures FindByKey(ColorTagOptions, TagValue, tag).None? ==> o == ColorTagOptions[0]
  {
    FindByKey(ColorTagOptions, TagValue, tag).GetOr(ColorTagOptions[0])
  }

  /** The position of a tag's option in the legend. */
  function TagIndex(t: ColorTag): nat {
    match t
    case Green => 0
    case Yellow => 1
    case Red => 2
    case Cyan => 3
    case Magenta => 4
  }

  /** Every tag has its own option, at its position in the legend, so the fallback is never taken. */
  lemma ColorTagInfoFindsOwnOption(t: ColorTag)
    ensures TagIndex(t) < |ColorTagOptions|
    ensures FindByKey(ColorTagOptions, TagValue, t).Some?
    ensures ColorTagInfo(t) == ColorTagOptions[TagIndex(t)] && ColorTagInfo(t).value == t
  {
    FindFirst(ColorTagOptions, TagValue, t, TagIndex(t));
  }

  /** Different tags are shown with different labels and different colours. */
  lemma ColorTagsDistinct(t1: ColorTag, t2: ColorTag)
    requires t1 != t2
    ensures ColorTagInfo(t1).title != ColorTagInfo(t2).title
    ensures ColorTagInfo(t1).color != ColorTagInfo(t2).color
  {
    ColorTagInfoFindsOwnOption(t1);
    ColorTagInfoFindsOwnOption(t2);
  }

  // ---------------------------------------------------------------------------
  // The dialog
  // ---------------------------------------------------------------------------

  /** The dialog's fields. */
  datatype NoteForm = NoteForm(
    name: string,
    colorTag: ColorTag,
    totalHands: int,
    vpip: real,
    pfr: real,
    note: string,
    exploits: string,
    stakes: seq<int>)

  function BlankForm(): NoteForm {
    NoteForm("", Green, 0, 0.0, 0.0, "", "", [])
  }

  /** The dialog's fields for a player; a player without stakes gets an empty checklist. */
  function FormFor(p: Player): (f: NoteForm)
    ensures f.stakes == p.stakes.GetOr([])
  {
    NoteForm(p.name, p.colorTag, p.totalHands, p.vpip, p.pfr, p.note, p.exploits, p.stakes.GetOr([]))
  }

  /** `handleOpen`: the form for the player under edit, or a blank one. */
  function Prefill(editing: Option<Player>): NoteForm {
    match editing
    case Some(p) => FormFor(p)
    case None => BlankForm()
  }

  /** A checked stake is its own key. */
  function StakeKey(x: int): int { x }

  /** `handleStakeChange`: a check appends the stake; an uncheck removes every occurrence. */
  function StakesAfterChange(stakes: seq<int>, stake: int, checked: bool): seq<int> {
    if checked then stakes + [stake] else RemoveByKey(stakes, StakeKey, stake)
  }

  /**
    A check appends exactly the stake; an uncheck leaves no occurrence of it,
    keeps the other stakes in their order, and keeps each of them as often as
    before.
   */
  lemma StakeChangeSpec(stakes: seq<int>, stake: int, checked: bool)
    ensures checked ==> StakesAfterChange(stakes, stake, checked) == stakes + [stake]
    ensures !checked ==>
      var r := StakesAfterChange(stakes, stake, checked);
      && stake !in r
      && IsSubsequence(r, stakes)
      && forall x :: x != stake ==> multiset(r)[x] == multiset(stakes)[x]
  {
    if !checked {
      RemoveByKeyCounts(stakes, StakeKey, stake);
      var r := StakesAfterChange(stakes, stake, checked);
      assert stake !in r by {
        assert forall i :: 0 <= i < |r| ==> Keys(r, StakeKey)[i] == r[i];
      }
    }
  }

  /** Checking a stake that was not in the list and unchecking it again restores the list. */
  lemma CheckThenUncheck(stakes: seq<int>, stake: int)
    requires stake !in stakes
    ensures StakesAfterChange(StakesAfterChange(stakes, stake, true), stake, false) == stakes
  {
    var ks := Keys(stakes, StakeKey);
    assert forall i :: 0 <= i < |ks| ==> ks[i] == stakes[i];
    assert stake !in ks;
    RemoveAfterAppend(stakes, StakeKey, stake);
  }

  /**
    `handleSave`: nothing is sent when the name is blank after trimming;
    otherwise the form becomes a player record (the name as typed, the
    stakes as checked) under the edited player's id, or the fresh id when
    adding or when the edited id is empty, sent as `UPDATE_PLAYER` when
    editing and `ADD_PLAYER` otherwise.
   */
  function SaveCommand(form: NoteForm, editing: Option<Player>, freshId: string): (cmd: Option<Action>)
    ensures cmd.None? <==> IsBlank(form.name)
    ensures cmd.Some? ==> (cmd.value.UpdatePlayer? <==> editing.Some?)
    ensures cmd.Some? && editing.None? ==> cmd.value.AddPlayer? && cmd.value.player.id == freshId
    ensures cmd.Some? && editing.Some? && editing.value.id != "" ==> cmd.value.player.id == editing.value.id
    ensures cmd.Some? && editing.Some? && editing.value.id == "" ==> cmd.value.player.id == freshId
    ensures cmd.Some? ==> var p := cmd.value.player;
      && p.name == form.name && p.colorTag == form.colorTag && p.totalHands == form.totalHands
      && p.vpip == form.vpip && p.pfr == form.pfr && p.note == form.note
      && p.exploits == form.exploits && p.stakes == Some(form.stakes) && p.aiSummary.None?
  {
    TrimEmptyIffBlank(form.name);
    if Trim(form.name) == "" then None
    else
      var id := if editing.Some? && editing.value.id != "" then editing.value.id else freshId;
      var p := Player(id, form.name, form.colorTag, form.totalHands, form.vpip, form.pfr,
        form.note, form.exploits, Some(form.stakes), None);
      if editing.Some? then Some(UpdatePlayer(p)) else Some(AddPlayer(p))
  }

  /**
    Opening a player's dialog and saving it unchanged leaves the store as it
    was, when the player has a non-blank name, a stake list, no summary, and
    is the only record with its (nonempty) id.
   */
  lemma OpenThenSaveUnchanged(s: AppState, p: Player, freshId: string)
    requires !IsBlank(p.name) && p.stakes.Some? && p.aiSummary.None? && p.id != ""
    requires forall i :: 0 <= i < |s.players| && s.players[i].id == p.id ==> s.players[i] == p
    ensures var cmd := SaveCommand(Prefill(Some(p)), Some(p), freshId);
      cmd == Some(UpdatePlayer(p)) && Reduce(s, cmd.value) == s
  {
    var cmd := SaveCommand(Prefill(Some(p)), Some(p), freshId);
    assert cmd.value.player == p;
    ReplaceBySelf(s.players, PlayerId, p);
  }

  /** Adding under a fresh id makes the new player the one a lookup of that id finds. */
  lemma AddedPlayerIsFound(s: AppState, form: NoteForm, freshId: string)
    requires !IsBlank(form.name) && freshId !in PlayerIds(s.players)
    ensures var cmd := SaveCommand(form, None, freshId);
      FindByKey(Reduce(s, cmd.value).players, PlayerId, freshId) == Some(cmd.value.player)
  {
    var cmd := SaveCommand(form, None, freshId);
    FindAfterAppend(s.players, PlayerId, cmd.value.player);
  }

  // ---------------------------------------------------------------------------
  // Expandable rows
  // ---------------------------------------------------------------------------

  /** A row can be expanded when its note is longer than 50 characters. */
  predicate HasLongNote(p: Player) {
    |p.note| > 50
  }

  /** The set after `handleRowToggle`. */
  function Toggled(expanded: set<string>, id: string): set<string> {
    if id in expanded then expanded - {id} else expanded + {id}
  }

  /** A toggle flips the membership of exactly one id; a second toggle undoes it. */
  lemma ToggleFlipsOnlyThatRow(expanded: set<string>, id: string, other: string)
    ensures id in Toggled(expanded, id) <==> id !in expanded
    ensures other != id ==> (other in Toggled(expanded, id) <==> other in expanded)
    ensures Toggled(Toggled(expanded, id), id) == expanded
  {
  }

  // ---------------------------------------------------------------------------
  // The view
  // ---------------------------------------------------------------------------

  class NotesView {
    const store: AppStore
    var open: bool
    var editing: Option<Player>
    var form: NoteForm
    var expanded: set<string>

    constructor (store: AppStore)
      ensures this.store == store && !open && editing.None? && form == BlankForm() && expanded == {}
    {
      this.store := store;
      open := false;
      editing := None;
      form := BlankForm();
      expanded := {};
    }

    /** `handleOpen`. */
    method Open(player: Option<Player>)
      modifies this
      ensures open && editing == player && form == Prefill(player) && expanded == old(expanded)
    {
      editing := player;
      form := Prefill(player);
      open := true;
    }

    /** A click on a stake checkbox. */
    method ChangeStake(stake: int, checked: bool)
      modifies this
      ensures form == old(form).(stakes := StakesAfterChange(old(form).stakes, stake, checked))
      ensures open == old(open) && editing == old(editing) && expanded == old(expanded)
    {
      form := form.(stakes := StakesAfterChange(form.stakes, stake, checked));
    }

    /**
      `handleSave`: with a blank name the dialog stays open and nothing is
      sent; otherwise the command is sent and the dialog closes.
     */
    method Save(freshId: string)
      modifies this, store
      ensures var cmd := SaveCommand(old(form), old(editing), freshId);
        && (cmd.None? ==> store.state == old(store.state) && store.blob == old(store.blob)
                          && open == old(open) && editing == old(editing))
        && (cmd.Some? ==> store.state == Reduce(old(store.state), cmd.value) && !open && editing.None?
                          && store.blob == SaveAsWritten(old(store.blob), store.state, store.show))
      ensures form == old(form) && expanded == old(expanded)
    {
      var cmd := SaveCommand(form, editing, freshId);
      if cmd.None? {
        return;
      }
      store.Dispatch(cmd.value);
      open := false;
      editing := None;
    }

    /** `handleDelete`: no command exists for it, so nothing changes. */
    method Delete(playerId: string)
      ensures store.state == old(store.state) && store.blob == old(store.blob)
    {
    }

    /** `handleRowToggle`: copy the set and flip one id. */
    method ToggleRow(id: string)
      modifies this
      ensures expanded == Toggled(old(expanded), id)
      ensures open == old(open) && editing == old(editing) && form == old(form)
    {
      var next := expanded;
      if id in next {
        next := next - {id};
      } else {
        next := next + {id};
      }
      expanded := next;
    }

    /** A click on a row toggles it only when the player's note is long. */
    method ClickRow(p: Player)
      modifies this
      ensures expanded == if HasLongNote(p) then Toggled(old(expanded), p.id) else old(expanded)
      ensures open == old(open) && editing == old(editing) && form == old(form)
    {
      if HasLongNote(p) {
        ToggleRow(p.id);
      }
    }
  }
}
